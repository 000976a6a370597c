/** The end of a sticker transaction: the new order goes out once the server has answered all its set changes. */
module StickerReorder {
  import opened Util
  import opened StickerSets

  /** What is known of one save: its order, the set changes it asked for, the answered ones, the orders it sent. */
  datatype Transaction = Transaction(order: seq<nat>, asked: set<nat>, answered: set<nat>, reordered: seq<seq<nat>>)

  /** A request whose handler can still run, with what the handler captured. */
  datatype Live = SetChange(save: nat, order: seq<nat>) | Reorder

  /**
   * One sticker type: the two fields of the client, the requests it has in flight, and all its transactions so far,
   * the newest last.
   */
  datatype Slot = Slot(waiting: set<nat>, reorderId: nat, live: map<nat, Live>, saves: seq<Transaction>)

  const NO_SLOT := Slot({}, 0, map[], [])

  // ---------- the steps of one type; `next` is the first request id not yet handed out ----------

  function Ids(from: nat, count: nat): (ids: set<nat>)
    ensures forall id :: id in ids <==> from <= id < from + count
  {
    if count == 0 then {} else Ids(from, count - 1) + {from + count - 1}
  }

  /** How many request ids sending an order takes. */
  function OrderIds(order: seq<nat>): nat {
    if |order| < 2 then 0 else 1
  }

  /** Sends the order of a transaction, unless it is too short to be an order. */
  function SendOrder(slot: Slot, next: nat, save: nat, order: seq<nat>): Slot
    requires save < |slot.saves|
  {
    if |order| < 2 then slot
    else
      var r := slot.saves[save];
      slot.(reorderId := next, live := slot.live[next := Reorder],
            saves := slot.saves[save := r.(reordered := r.reordered + [order])])
  }

  /** The order goes out under the next id, which is then taken, and is recorded with its transaction. */
  lemma OrderTakesId(slot: Slot, next: nat, save: nat, order: seq<nat>)
    requires save < |slot.saves| && next !in slot.live && next > 0
    ensures var t := SendOrder(slot, next, save, order);
            && (|order| < 2 ==> t == slot && OrderIds(order) == 0)
            && (|order| >= 2 ==>
                  && OrderIds(order) == 1
                  && t.reorderId == next && t.live == slot.live[next := Reorder]
                  && t.saves[save].reordered == slot.saves[save].reordered + [order])
  {
  }

  /** A new save cancels what the last one still had in flight, and asks for its own set changes. */
  function Begin(slot: Slot, next: nat, order: seq<nat>, count: nat): Slot {
    var ids := Ids(next, count);
    var kept := slot.live - slot.waiting - {slot.reorderId};
    Slot(ids, 0, kept + map id | id in ids :: SetChange(|slot.saves|, order),
         slot.saves + [Transaction(order, ids, {}, [])])
  }

  function Save(slot: Slot, next: nat, order: seq<nat>, count: nat): Slot {
    var t := Begin(slot, next, order, count);
    if count == 0 then SendOrder(t, next, |slot.saves|, order) else t
  }

  function SaveIds(order: seq<nat>, count: nat): nat {
    if count == 0 then OrderIds(order) else count
  }

  lemma {:induction false} IdsCount(from: nat, count: nat)
    ensures |Ids(from, count)| == count
  {
    if count > 0 {
      IdsCount(from, count - 1);
    }
  }

  /** A save asks with one request for each change. */
  lemma AskedCount(slot: Slot, next: nat, order: seq<nat>, count: nat)
    ensures Save(slot, next, order, count).saves != []
    ensures |Last(Save(slot, next, order, count).saves).asked| == count
  {
    IdsCount(next, count);
  }

  predicate Answerable(slot: Slot, id: nat) {
    id in slot.live && (slot.live[id].SetChange? ==> slot.live[id].save < |slot.saves|)
  }

  /** One set change is answered, whether it worked or not. */
  function Settle(slot: Slot, id: nat, save: nat): Slot
    requires save < |slot.saves|
  {
    var r := slot.saves[save];
    slot.(waiting := slot.waiting - {id}, live := slot.live - {id},
          saves := slot.saves[save := r.(answered := r.answered + {id})])
  }

  function Answer(slot: Slot, next: nat, id: nat): Slot
    requires Answerable(slot, id)
  {
    match slot.live[id]
    case SetChange(save, order) =>
      var t := Settle(slot, id, save);
      if t.waiting == {} then SendOrder(t, next, save, order) else t
    case Reorder =>
      slot.(reorderId := 0, live := slot.live - {id})
  }

  function AnswerIds(slot: Slot, id: nat): nat
    requires Answerable(slot, id)
  {
    if slot.live[id].SetChange? && slot.waiting - {id} == {} then OrderIds(slot.live[id].order) else 0
  }

  // ---------- what every reachable slot satisfies ----------

  /** A transaction sends nothing, or its own order once, and that only when all its changes are answered. */
  ghost predicate Sound(r: Transaction) {
    && r.answered <= r.asked
    && (r.reordered == [] || (r.reordered == [r.order] && r.answered == r.asked && |r.order| >= 2))
  }

  /** The newest transaction is the one the fields are about, and it has sent its order as soon as it could. */
  ghost predicate Newest(slot: Slot) {
    if slot.saves == [] then slot.waiting == {} && slot.reorderId == 0
    else
      var r := Last(slot.saves);
      && slot.waiting == r.asked - r.answered
      && r.reordered == (if slot.waiting == {} && |r.order| >= 2 then [r.order] else [])
      && (slot.reorderId != 0 ==> slot.waiting == {})
  }

  /** Only requests of the newest transaction are in flight, and the fields list them. */
  ghost predicate InFlight(slot: Slot) {
    && (forall id | id in slot.live && slot.live[id].SetChange? ::
          && id in slot.waiting && slot.saves != []
          && slot.live[id] == SetChange(|slot.saves| - 1, Last(slot.saves).order))
    && (forall id | id in slot.live && slot.live[id].Reorder? :: id == slot.reorderId)
    && (forall id | id in slot.waiting :: id in slot.live && slot.live[id].SetChange?)
    && (slot.reorderId != 0 ==> slot.reorderId in slot.live && slot.live[slot.reorderId].Reorder?)
  }

  ghost predicate AllSound(slot: Slot) {
    forall n | 0 <= n < |slot.saves| :: Sound(slot.saves[n])
  }

  ghost predicate Invariant(slot: Slot, next: nat) {
    && Newest(slot) && InFlight(slot) && AllSound(slot)
    && next > 0 && (forall id | id in slot.live :: 0 < id < next)
  }

  lemma BeginKeeps(slot: Slot, next: nat, order: seq<nat>, count: nat)
    requires Invariant(slot, next)
    ensures var t := Begin(slot, next, order, count);
            && InFlight(t) && AllSound(t) && t.waiting == Ids(next, count) && t.reorderId == 0
            && t.saves == slot.saves + [Transaction(order, Ids(next, count), {}, [])]
            && (forall id | id in t.live :: id in Ids(next, count))
  {
  }

  /** When nothing is waited for and no order was sent, sending it completes the transaction. */
  lemma SendOrderKeeps(slot: Slot, next: nat, order: seq<nat>)
    requires next > 0 && AllSound(slot) && slot.saves != [] && slot.waiting == {} && slot.reorderId == 0
    requires slot.live == map[]
    requires var r := Last(slot.saves); r.order == order && r.reordered == [] && r.asked == r.answered
    ensures Invariant(SendOrder(slot, next, |slot.saves| - 1, order), next + OrderIds(order))
  {
  }

  lemma SaveKeeps(slot: Slot, next: nat, order: seq<nat>, count: nat)
    requires Invariant(slot, next)
    ensures Invariant(Save(slot, next, order, count), next + SaveIds(order, count))
  {
    var t := Begin(slot, next, order, count);
    BeginKeeps(slot, next, order, count);
    if count == 0 {
      assert t.live == map[];
      SendOrderKeeps(t, next, order);
    } else {
      assert next in t.waiting;
    }
  }

  lemma SetChangeKeeps(slot: Slot, next: nat, id: nat)
    requires Invariant(slot, next) && Answerable(slot, id) && slot.live[id].SetChange?
    ensures Invariant(Answer(slot, next, id), next + AnswerIds(slot, id))
  {
    var order := slot.live[id].order;
    assert slot.live[id] == SetChange(|slot.saves| - 1, Last(slot.saves).order);
    SettleKeeps(slot, next, id);
    var t := Settle(slot, id, |slot.saves| - 1);
    if t.waiting == {} {
      assert t.live == map[];
      SendOrderKeeps(t, next, order);
    }
  }

  lemma ReorderKeeps(slot: Slot, next: nat, id: nat)
    requires Invariant(slot, next) && Answerable(slot, id) && slot.live[id].Reorder?
    ensures Invariant(Answer(slot, next, id), next)
  {
  }

  lemma AnswerKeeps(slot: Slot, next: nat, id: nat)
    requires Invariant(slot, next) && Answerable(slot, id)
    ensures Invariant(Answer(slot, next, id), next + AnswerIds(slot, id))
  {
    if slot.live[id].SetChange? {
      SetChangeKeeps(slot, next, id);
    } else {
      ReorderKeeps(slot, next, id);
    }
  }

  lemma SettleKeeps(slot: Slot, next: nat, id: nat)
    requires Invariant(slot, next) && Answerable(slot, id) && slot.live[id].SetChange?
    ensures var t := Settle(slot, id, |slot.saves| - 1);
            && InFlight(t) && AllSound(t) && t.reorderId == 0
            && (t.waiting != {} ==> Invariant(t, next))
            && var r := Last(t.saves);
               r.order == Last(slot.saves).order && r.reordered == [] && t.waiting == r.asked - r.answered
  {
  }

  // ---------- the three types together ----------

  datatype State = State(stickers: Slot, masks: Slot, emoji: Slot, next: nat)

  const INITIAL := State(NO_SLOT, NO_SLOT, NO_SLOT, 1)

  function SlotOf(s: State, kind: StickersType): Slot {
    match kind
    case Stickers => s.stickers
    case Masks => s.masks
    case Emoji => s.emoji
  }

  function WithSlot(s: State, kind: StickersType, slot: Slot, used: nat): (t: State)
    ensures SlotOf(t, kind) == slot && t.next == s.next + used
    ensures forall other | other != kind :: SlotOf(t, other) == SlotOf(s, other)
  {
    match kind
    case Stickers => s.(stickers := slot, next := s.next + used)
    case Masks => s.(masks := slot, next := s.next + used)
    case Emoji => s.(emoji := slot, next := s.next + used)
  }

  datatype Action =
    | DoSave(kind: StickersType, order: seq<nat>, count: nat)
    | DoAnswer(kind: StickersType, id: nat)

  predicate Possible(s: State, a: Action) {
    a.DoAnswer? ==> Answerable(SlotOf(s, a.kind), a.id)
  }

  function Step(s: State, a: Action): State
    requires Possible(s, a)
  {
    var slot := SlotOf(s, a.kind);
    match a
    case DoSave(kind, order, count) => WithSlot(s, kind, Save(slot, s.next, order, count), SaveIds(order, count))
    case DoAnswer(kind, id) => WithSlot(s, kind, Answer(slot, s.next, id), AnswerIds(slot, id))
  }

  lemma StepKeeps(s: State, a: Action, kind: StickersType)
    requires Possible(s, a) && Invariant(SlotOf(s, kind), s.next)
    ensures Invariant(SlotOf(Step(s, a), kind), Step(s, a).next)
  {
    if a.kind == kind {
      match a {
        case DoSave(_, order, count) => SaveKeeps(SlotOf(s, kind), s.next, order, count);
        case DoAnswer(_, id) => AnswerKeeps(SlotOf(s, kind), s.next, id);
      }
    }
  }

  lemma StepKeepsAll(s: State, a: Action)
    requires Possible(s, a) && forall kind :: Invariant(SlotOf(s, kind), s.next)
    ensures forall kind :: Invariant(SlotOf(Step(s, a), kind), Step(s, a).next)
  {
    forall kind
      ensures Invariant(SlotOf(Step(s, a), kind), Step(s, a).next)
    {
      StepKeeps(s, a, kind);
    }
  }

  ghost predicate Next(s: State, t: State) {
    exists a :: Possible(s, a) && t == Step(s, a)
  }

  /** A run, with the saves and the answers of all types interleaved in any way. */
  ghost predicate IsRun(states: seq<State>) {
    && |states| > 0 && states[0] == INITIAL
    && (forall i | 0 <= i < |states| - 1 :: Next(states[i], states[i + 1]))
  }

  lemma {:induction false} Reachable(states: seq<State>, i: nat, kind: StickersType)
    requires IsRun(states) && i < |states|
    ensures Invariant(SlotOf(states[i], kind), states[i].next)
  {
    if i > 0 {
      Reachable(states, i - 1, kind);
      assert Next(states[i - 1], states[i - 1 + 1]);
      var a :| Possible(states[i - 1], a) && states[i] == Step(states[i - 1], a);
      StepKeeps(states[i - 1], a, kind);
    }
  }

  /** A save sends its order at most once, the order it was given, and never before its changes are all answered. */
  lemma OrderSentOnceAfterAnswers(states: seq<State>, i: nat, kind: StickersType, n: nat)
    requires IsRun(states) && i < |states| && n < |SlotOf(states[i], kind).saves|
    ensures var r := SlotOf(states[i], kind).saves[n];
            r.reordered == [] || (r.reordered == [r.order] && r.answered == r.asked && |r.order| >= 2)
  {
    Reachable(states, i, kind);
    assert Sound(SlotOf(states[i], kind).saves[n]);
  }

  /** The newest save has sent its order exactly when all its changes are answered and the order is one. */
  lemma OrderSentWhenAnswered(states: seq<State>, i: nat, kind: StickersType)
    requires IsRun(states) && i < |states| && SlotOf(states[i], kind).saves != []
    ensures var r := Last(SlotOf(states[i], kind).saves);
            r.reordered == [r.order] <==> r.answered == r.asked && |r.order| >= 2
  {
    Reachable(states, i, kind);
    assert Sound(Last(SlotOf(states[i], kind).saves));
  }

  ghost predicate KeepsOlder(s: State, t: State, kind: StickersType, n: nat) {
    && n + 1 < |SlotOf(s, kind).saves| && n + 1 < |SlotOf(t, kind).saves|
    && SlotOf(t, kind).saves[n] == SlotOf(s, kind).saves[n]
  }

  lemma StepKeepsOlder(s: State, a: Action, kind: StickersType, n: nat)
    requires Possible(s, a) && Invariant(SlotOf(s, kind), s.next) && n + 1 < |SlotOf(s, kind).saves|
    ensures KeepsOlder(s, Step(s, a), kind, n)
  {
  }

  lemma NextKeepsOlder(s: State, t: State, kind: StickersType, n: nat)
    requires Next(s, t) && Invariant(SlotOf(s, kind), s.next) && n + 1 < |SlotOf(s, kind).saves|
    ensures KeepsOlder(s, t, kind, n)
  {
    var a :| Possible(s, a) && t == Step(s, a);
    StepKeepsOlder(s, a, kind, n);
  }

  lemma RunKeepsOlder(states: seq<State>, j: nat, kind: StickersType, n: nat)
    requires IsRun(states) && j + 1 < |states| && n + 1 < |SlotOf(states[j], kind).saves|
    ensures KeepsOlder(states[j], states[j + 1], kind, n)
  {
    Reachable(states, j, kind);
    NextKeepsOlder(states[j], states[j + 1], kind, n);
  }

  /** Once a newer save of the type began, nothing more happens to an older one: an unsent order stays unsent. */
  lemma {:induction false} OlderSavesAreOver(states: seq<State>, i: nat, j: nat, kind: StickersType, n: nat)
    requires IsRun(states) && i <= j < |states| && n + 1 < |SlotOf(states[i], kind).saves|
    ensures KeepsOlder(states[i], states[j], kind, n)
    decreases j
  {
    if i < j {
      OlderSavesAreOver(states, i, j - 1, kind, n);
      RunKeepsOlder(states, j - 1, kind, n);
    }
  }

  /** What a save and an answer do to the two fields of their type. */
  lemma StepFields(s: State, a: Action)
    requires Possible(s, a)
    requires a.DoAnswer? ==> SlotOf(s, a.kind).live[a.id].SetChange?
    ensures var slot := SlotOf(Step(s, a), a.kind);
            var order := if a.DoSave? then a.order else SlotOf(s, a.kind).live[a.id].order;
            && slot.waiting == (if a.DoSave? then Ids(s.next, a.count) else SlotOf(s, a.kind).waiting - {a.id})
            && var used := if a.DoSave? then a.count else 0;
               && slot.reorderId == (if slot.waiting == {} && |order| >= 2 then s.next + used
                                     else if a.DoSave? then 0 else SlotOf(s, a.kind).reorderId)
               && Step(s, a).next == s.next + used + (if slot.waiting == {} then OrderIds(order) else 0)
    ensures forall other | other != a.kind :: SlotOf(Step(s, a), other) == SlotOf(s, other)
  {
    if a.DoSave? && a.count > 0 {
      assert s.next in Ids(s.next, a.count);
    }
  }

  // ---------- the client ----------

  class Client {
    var stickerSetDisenableRequests: set<nat>
    var maskSetDisenableRequests: set<nat>
    var customEmojiSetDisenableRequests: set<nat>
    var stickersReorderRequestId: nat
    var masksReorderRequestId: nat
    var customEmojiReorderRequestId: nat
    var nextRequest: nat
    var sentOrders: map<nat, seq<nat>> // the orders that went out, by request
    ghost var state: State

    ghost predicate Valid()
      reads this
    {
      && (forall kind :: Invariant(SlotOf(state, kind), state.next))
      && Shows(state)
    }

    constructor ()
      ensures Valid() && state == INITIAL
    {
      stickerSetDisenableRequests, maskSetDisenableRequests, customEmojiSetDisenableRequests := {}, {}, {};
      stickersReorderRequestId, masksReorderRequestId, customEmojiReorderRequestId := 0, 0, 0;
      nextRequest := 1;
      sentOrders := map[];
      state := INITIAL;
    }

    function Disenable(kind: StickersType): set<nat>
      reads this`stickerSetDisenableRequests, this`maskSetDisenableRequests, this`customEmojiSetDisenableRequests
    {
      match kind
      case Emoji => customEmojiSetDisenableRequests
      case Masks => maskSetDisenableRequests
      case Stickers => stickerSetDisenableRequests
    }

    method SetDisenable(kind: StickersType, ids: set<nat>)
      modifies this`stickerSetDisenableRequests, this`maskSetDisenableRequests, this`customEmojiSetDisenableRequests
      ensures forall other :: Disenable(other) == if other == kind then ids else old(Disenable(other))
    {
      match kind {
        case Emoji => customEmojiSetDisenableRequests := ids;
        case Masks => maskSetDisenableRequests := ids;
        case Stickers => stickerSetDisenableRequests := ids;
      }
    }

    function ReorderId(kind: StickersType): nat
      reads this`stickersReorderRequestId, this`masksReorderRequestId, this`customEmojiReorderRequestId
    {
      match kind
      case Emoji => customEmojiReorderRequestId
      case Masks => masksReorderRequestId
      case Stickers => stickersReorderRequestId
    }

    method SetReorderId(kind: StickersType, id: nat)
      modifies this`stickersReorderRequestId, this`masksReorderRequestId, this`customEmojiReorderRequestId
      ensures forall other :: ReorderId(other) == if other == kind then id else old(ReorderId(other))
    {
      match kind {
        case Emoji => customEmojiReorderRequestId := id;
        case Masks => masksReorderRequestId := id;
        case Stickers => stickersReorderRequestId := id;
      }
    }

    ghost predicate Shows(s: State)
      reads this
    {
      && (forall kind :: Disenable(kind) == SlotOf(s, kind).waiting && ReorderId(kind) == SlotOf(s, kind).reorderId)
      && s.next == nextRequest
    }

    ghost method Become(a: Action)
      requires (forall kind :: Invariant(SlotOf(state, kind), state.next))
      requires Possible(state, a) && Shows(Step(state, a))
      modifies this`state
      ensures Valid() && state == Step(old(state), a)
    {
      StepKeepsAll(state, a);
      state := Step(state, a);
    }

    /** The order of the captured save goes out, under the next request id, if it is an order. */
    method StickersSaveOrder(kind: StickersType, order: seq<nat>)
      modifies this`stickersReorderRequestId, this`masksReorderRequestId, this`customEmojiReorderRequestId
      modifies this`nextRequest, this`sentOrders
      ensures sentOrders == if |order| < 2 then old(sentOrders) else old(sentOrders)[old(nextRequest) := order]
      ensures nextRequest == old(nextRequest) + OrderIds(order)
      ensures ReorderId(kind) == if |order| >= 2 then old(nextRequest) else old(ReorderId(kind))
      ensures forall other | other != kind :: ReorderId(other) == old(ReorderId(other))
    {
      if |order| < 2 {
        return;
      }
      SetReorderId(kind, nextRequest);
      sentOrders := sentOrders[nextRequest := order];
      nextRequest := nextRequest + 1;
    }

    /** The set changes of a save, one request each, after the last save's requests are cancelled. */
    method AskForChanges(kind: StickersType, count: nat)
      modifies this`stickerSetDisenableRequests, this`maskSetDisenableRequests, this`customEmojiSetDisenableRequests
      modifies this`stickersReorderRequestId, this`masksReorderRequestId, this`customEmojiReorderRequestId
      modifies this`nextRequest
      ensures nextRequest == old(nextRequest) + count
      ensures Disenable(kind) == Ids(old(nextRequest), count) && ReorderId(kind) == 0
      ensures Disenable(kind) == {} <==> count == 0
      ensures forall other | other != kind ::
                Disenable(other) == old(Disenable(other)) && ReorderId(other) == old(ReorderId(other))
    {
      SetDisenable(kind, {});
      SetReorderId(kind, 0);
      var i := 0;
      while i < count
        invariant 0 <= i <= count && nextRequest == old(nextRequest) + i
        invariant Disenable(kind) == Ids(old(nextRequest), i) && ReorderId(kind) == 0
        invariant forall other | other != kind ::
                    Disenable(other) == old(Disenable(other)) && ReorderId(other) == old(ReorderId(other))
      {
        SetDisenable(kind, Disenable(kind) + {nextRequest});
        nextRequest := nextRequest + 1;
        i := i + 1;
      }
      assert count > 0 ==> old(nextRequest) in Disenable(kind);
    }

    method RequestChanges(kind: StickersType, order: seq<nat>, count: nat)
      requires Valid()
      modifies this
      ensures Valid() && state == Step(old(state), DoSave(kind, order, count))
      ensures sentOrders == if count == 0 && |order| >= 2 then old(sentOrders)[old(nextRequest) := order]
                            else old(sentOrders)
    {
      AskForChanges(kind, count);
      StepFields(state, DoSave(kind, order, count));
      if Disenable(kind) == {} {
        StickersSaveOrder(kind, order);
      }
      Become(DoSave(kind, order, count));
    }

    /**
     * The whole save: the local edit, one request for each set that it changes on the server, and the order at once
     * if it changes none.
     */
    method SaveStickerSets(store: Store, localOrder: seq<nat>, localRemoved: seq<nat>, kind: StickersType, now: nat)
      requires Valid()
      modifies this, store
      ensures store.Value() == StickerSets.Save(old(store.Value()), Edit(localOrder, localRemoved, kind, now))
      ensures old(store.sent) <= store.sent
      ensures var count := Changes(store.sent[|old(store.sent)|..]);
              && Valid() && state == Step(old(state), DoSave(kind, localOrder, count))
              && SlotOf(state, kind).saves != [] && |Last(SlotOf(state, kind).saves).asked| == count
              && sentOrders == if count == 0 && |localOrder| >= 2 then old(sentOrders)[old(nextRequest) := localOrder]
                               else old(sentOrders)
    {
      SaveAppends(store.Value(), Edit(localOrder, localRemoved, kind, now));
      var before := |store.sent|;
      store.SaveStickerSets(localOrder, localRemoved, kind, now);
      var count := Changes(store.sent[before..]);
      AskedCount(SlotOf(state, kind), state.next, localOrder, count);
      RequestChanges(kind, localOrder, count);
    }

    method StickerSetDisenabled(kind: StickersType, id: nat, ghost save: nat, order: seq<nat>)
      requires Valid() && Answerable(SlotOf(state, kind), id) && SlotOf(state, kind).live[id] == SetChange(save, order)
      modifies this
      ensures Valid() && state == Step(old(state), DoAnswer(kind, id))
      ensures sentOrders == if SlotOf(state, kind).waiting == {} && |order| >= 2
                            then old(sentOrders)[old(nextRequest) := order]
                            else old(sentOrders)
    {
      StepFields(state, DoAnswer(kind, id));
      SetDisenable(kind, Disenable(kind) - {id});
      if Disenable(kind) == {} {
        StickersSaveOrder(kind, order);
      }
      Become(DoAnswer(kind, id));
    }

    method ReorderAnswered(kind: StickersType, id: nat)
      requires Valid() && Answerable(SlotOf(state, kind), id) && SlotOf(state, kind).live[id] == Reorder
      modifies this
      ensures Valid() && state == Step(old(state), DoAnswer(kind, id))
    {
      SetReorderId(kind, 0);
      Become(DoAnswer(kind, id));
    }
  }
}
