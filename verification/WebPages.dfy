/** Pending link previews: due pages are asked for in few requests, by the messages they appear in. */
module WebPages {
  import opened Util

  const INT_MAX := 0x7fff_ffff
  const DAY := 86400

  /** Where the message of a page is asked for: in the common request, or in the one of its channel. */
  datatype Scope = Plain | InChannel(channel: nat)

  datatype Item = Item(scope: Scope, msg: nat)

  /** What goes to the server. */
  datatype Asked = Asked(scope: Scope, messages: seq<nat>)

  /** A request, with the pages it was sent for. */
  datatype Sent = Sent(scope: Scope, messages: seq<nat>, pages: set<nat>)

  /** The pending pages with their request ids (0 when unsent), and what was sent and answered so far. */
  datatype State = State(pending: map<nat, int>, next: int, sent: map<int, Sent>, answered: set<int>)

  const INITIAL := State(map[], 1, map[], {})

  /** What the pass over the pending pages looks at: the time, when pages fall due, and the items that show them. */
  datatype View = View(now: int, till: map<nat, int>, items: map<nat, Item>)

  predicate Known(v: View, pending: map<nat, int>) {
    forall p | p in pending :: p in v.till
  }

  /** An unsent page that is due and that some message shows. */
  predicate Wanted(v: View, pending: map<nat, int>, p: nat) {
    p in pending && p in v.till && pending[p] == 0 && v.till[p] <= v.now && p in v.items
  }

  predicate WantedIn(v: View, pending: map<nat, int>, scope: Scope, p: nat) {
    Wanted(v, pending, p) && v.items[p].scope == scope
  }

  /** A wanted page of the scope that this message shows. */
  predicate Shows(v: View, pending: map<nat, int>, scope: Scope, m: nat, p: nat) {
    WantedIn(v, pending, scope, p) && v.items[p].msg == m
  }

  /** The messages are those that show the wanted pages of the scope, all of them and no other. */
  ghost predicate Gathers(v: View, pending: map<nat, int>, scope: Scope, messages: seq<nat>) {
    forall m: nat :: m in messages <==> exists p :: Shows(v, pending, scope, m, p)
  }

  ghost predicate HasWanted(v: View, pending: map<nat, int>, scope: Scope) {
    exists p :: WantedIn(v, pending, scope, p)
  }

  // ---------- the steps ----------

  /** A page becomes pending; one that is pending already keeps its request. */
  function Delay(s: State, p: nat): State {
    if p in s.pending then s else s.(pending := s.pending[p := 0])
  }

  function Clear(s: State, p: nat): State {
    s.(pending := s.pending - {p})
  }

  function ClearAll(s: State): State {
    s.(pending := map[])
  }

  function PagesIn(v: View, pending: map<nat, int>, scope: Scope): set<nat> {
    set p | p in pending && WantedIn(v, pending, scope, p)
  }

  ghost predicate Lists(v: View, pending: map<nat, int>, r: Sent) {
    r.pages == PagesIn(v, pending, r.scope) && Gathers(v, pending, r.scope, r.messages)
  }

  /** One request for each scope with wanted pages, under ids of their own. */
  ghost predicate Requested(s: State, v: View, t: State, ids: map<Scope, int>) {
    && (forall scope :: scope in ids <==> HasWanted(v, s.pending, scope))
    && (forall a, b | a in ids && b in ids && ids[a] == ids[b] :: a == b)
    && (forall a | a in ids :: s.next <= ids[a] < t.next && ids[a] in t.sent && t.sent[ids[a]].scope == a)
    && (forall a | a in ids :: Lists(v, s.pending, t.sent[ids[a]]))
    && s.next <= t.next
    && t.sent.Keys == s.sent.Keys + ids.Values
    && (forall id | id in s.sent :: t.sent[id] == s.sent[id])
    && t.answered == s.answered
  }

  /** A pass: every wanted page ends with the id of the request of its scope, and the others keep theirs. */
  ghost predicate Resolved(s: State, v: View, t: State, ids: map<Scope, int>) {
    && Requested(s, v, t, ids)
    && t.pending.Keys == s.pending.Keys
    && (forall p | p in s.pending :: t.pending[p] == MarkOf(v, s.pending, ids, p))
  }

  function MarkOf(v: View, pending: map<nat, int>, ids: map<Scope, int>, p: nat): int
    requires p in pending
  {
    if Wanted(v, pending, p) && v.items[p].scope in ids then ids[v.items[p].scope] else pending[p]
  }

  /** The reply to a request: the pages that hold its id are no longer pending. */
  function Got(s: State, id: int): State {
    s.(pending := map p | p in s.pending && s.pending[p] != id :: s.pending[p], answered := s.answered + {id})
  }

  ghost predicate Next(s: State, t: State) {
    || (exists p :: t == Delay(s, p))
    || (exists p :: t == Clear(s, p))
    || t == ClearAll(s)
    || (exists v, ids :: Known(v, s.pending) && Resolved(s, v, t, ids))
    || (exists id :: id in s.sent && id !in s.answered && t == Got(s, id))
  }

  /** A page holds no id but that of a request not answered yet that was sent for it. */
  ghost predicate Invariant(s: State) {
    && s.next > 0
    && (forall id | id in s.sent :: 0 < id < s.next)
    && (forall p | p in s.pending && s.pending[p] != 0 ::
          && s.pending[p] in s.sent && s.pending[p] !in s.answered && p in s.sent[s.pending[p]].pages)
    && (forall id | id in s.answered :: id in s.sent)
  }

  lemma ResolvedKeeps(s: State, v: View, t: State, ids: map<Scope, int>)
    requires Invariant(s) && Resolved(s, v, t, ids)
    ensures Invariant(t)
  {
    forall id | id in t.sent
      ensures 0 < id < t.next
    {
      if id in ids.Values {
        var a :| a in ids && ids[a] == id;
      }
    }
    forall p | p in t.pending && t.pending[p] != 0
      ensures t.pending[p] in t.sent && t.pending[p] !in t.answered && p in t.sent[t.pending[p]].pages
    {
      if Wanted(v, s.pending, p) {
        var scope := v.items[p].scope;
        assert WantedIn(v, s.pending, scope, p);
        assert scope in ids && Lists(v, s.pending, t.sent[ids[scope]]);
      }
    }
  }

  lemma NextKeeps(s: State, t: State)
    requires Invariant(s) && Next(s, t)
    ensures Invariant(t)
  {
    if v, ids :| Known(v, s.pending) && Resolved(s, v, t, ids) {
      ResolvedKeeps(s, v, t, ids);
    }
  }

  ghost predicate IsRun(states: seq<State>) {
    && |states| > 0 && states[0] == INITIAL
    && (forall i | 0 <= i < |states| - 1 :: Next(states[i], states[i + 1]))
  }

  lemma {:induction false} Reachable(states: seq<State>, i: nat)
    requires IsRun(states) && i < |states|
    ensures Invariant(states[i])
  {
    if i > 0 {
      Reachable(states, i - 1);
      assert Next(states[i - 1], states[i - 1 + 1]);
      NextKeeps(states[i - 1], states[i]);
    }
  }

  /** A page that is asked for already, not due yet, or shown by no message, keeps its id in a pass. */
  lemma OtherPagesStay(s: State, v: View, t: State, ids: map<Scope, int>, p: nat)
    requires Resolved(s, v, t, ids) && p in s.pending
    requires s.pending[p] != 0 || (p in v.till && v.till[p] > v.now) || p !in v.items
    ensures p in t.pending && t.pending[p] == s.pending[p]
  {
    assert !Wanted(v, s.pending, p);
  }

  /** What a delayed page, a dropped page, the dropping of all and a reply change. */
  lemma StepsChange(s: State, p: nat, q: nat, id: int)
    ensures q in Delay(s, p).pending <==> q in s.pending || q == p
    ensures q in s.pending ==> Delay(s, p).pending[q] == s.pending[q]
    ensures p !in s.pending ==> Delay(s, p).pending[p] == 0
    ensures q in Clear(s, p).pending <==> q in s.pending && q != p
    ensures q in Clear(s, p).pending ==> Clear(s, p).pending[q] == s.pending[q]
    ensures q !in ClearAll(s).pending
    ensures Got(s, id).answered == s.answered + {id}
    ensures forall t | t in [Delay(s, p), Clear(s, p), ClearAll(s), Got(s, id)] :: t.sent == s.sent && t.next == s.next
  {
  }

  /** After a pass every wanted page holds the id of the one new request, to its scope, that lists its message. */
  lemma WantedIsListed(s: State, v: View, t: State, ids: map<Scope, int>, p: nat)
    requires Invariant(s) && Resolved(s, v, t, ids)
    requires p in s.pending && s.pending[p] == 0 && p in v.till && v.till[p] <= v.now && p in v.items
    ensures t.pending[p] >= s.next && t.pending[p] in t.sent
    ensures forall id :: id in t.sent && id !in s.sent && t.sent[id].scope == v.items[p].scope <==> id == t.pending[p]
    ensures v.items[p].msg in t.sent[t.pending[p]].messages
  {
    var scope := v.items[p].scope;
    assert WantedIn(v, s.pending, scope, p);
    assert scope in ids && Lists(v, s.pending, t.sent[ids[scope]]);
    assert Shows(v, s.pending, scope, v.items[p].msg, p);
    forall id | id in t.sent && id !in s.sent && t.sent[id].scope == scope
      ensures id == ids[scope]
    {
      var a :| a in ids && ids[a] == id;
    }
  }

  /** A reply takes away exactly the pages its request was sent for and that still wait for it. */
  lemma ReplyTakesItsPages(states: seq<State>, i: nat, id: int, p: nat)
    requires IsRun(states) && i < |states| && p in states[i].pending
    requires id in states[i].sent && id !in states[i].answered
    ensures p in Got(states[i], id).pending <==> states[i].pending[p] != id
    ensures p !in Got(states[i], id).pending ==> p in states[i].sent[id].pages
    ensures p in Got(states[i], id).pending ==> Got(states[i], id).pending[p] == states[i].pending[p]
  {
    Reachable(states, i);
  }

  // ---------- the three passes ----------

  /** The messages for one channel, and the place of its request among the channel requests. */
  datatype Batch = Batch(index: nat, messages: seq<nat>)

  /** The indices are the numbers below the number of channels, each used once. */
  ghost predicate Indexed(channels: map<nat, Batch>) {
    && (forall c | c in channels :: channels[c].index < |channels|)
    && (forall c, d | c in channels && d in channels && channels[c].index == channels[d].index :: c == d)
  }

  ghost predicate Collected(v: View, part: map<nat, int>, plain: seq<nat>, channels: map<nat, Batch>) {
    && Gathers(v, part, Plain, plain)
    && (forall c :: c in channels <==> HasWanted(v, part, InChannel(c)))
    && (forall c | c in channels :: Gathers(v, part, InChannel(c), channels[c].messages))
    && Indexed(channels)
  }

  /** The temporary id of a wanted page: -1, or -2 less the index of its channel; the others keep theirs. */
  function Marked(v: View, pending: map<nat, int>, channels: map<nat, Batch>, p: nat): int
    requires p in pending
  {
    if !Wanted(v, pending, p) then pending[p]
    else
      match v.items[p].scope
      case Plain => -1
      case InChannel(c) => if c in channels then -2 - channels[c].index else 0
  }

  lemma GatherOne(v: View, part: map<nat, int>, scope: Scope, messages: seq<nat>, p: nat, x: int)
    requires Gathers(v, part, scope, messages) && p !in part
    ensures var more := if WantedIn(v, part[p := x], scope, p) then messages + [v.items[p].msg] else messages;
            Gathers(v, part[p := x], scope, more)
    ensures HasWanted(v, part[p := x], scope) <==> HasWanted(v, part, scope) || WantedIn(v, part[p := x], scope, p)
  {
    var now := part[p := x];
    assert forall q :: WantedIn(v, now, scope, q) <==>
                       WantedIn(v, part, scope, q) || (q == p && WantedIn(v, now, scope, p));
    var more := if WantedIn(v, now, scope, p) then messages + [v.items[p].msg] else messages;
    forall m: nat
      ensures m in more <==> exists q :: Shows(v, now, scope, m, q)
    {
      assert m in more <==> m in messages || Shows(v, now, scope, m, p);
      if m in messages {
        var q :| Shows(v, part, scope, m, q);
        assert Shows(v, now, scope, m, q);
      }
      if q :| Shows(v, now, scope, m, q) {
        assert q == p || Shows(v, part, scope, m, q);
      }
    }
  }

  function Join(channels: map<nat, Batch>, c: nat, msg: nat): map<nat, Batch> {
    if c in channels then channels[c := channels[c].(messages := channels[c].messages + [msg])]
    else channels[c := Batch(|channels|, [msg])]
  }

  lemma JoinIndexed(channels: map<nat, Batch>, c: nat, msg: nat)
    requires Indexed(channels)
    ensures Indexed(Join(channels, c, msg))
    ensures forall d | d in channels :: Join(channels, c, msg)[d].index == channels[d].index
  {
    if c !in channels {
      assert |Join(channels, c, msg)| == |channels| + 1;
    } else {
      assert Join(channels, c, msg).Keys == channels.Keys;
      assert |Join(channels, c, msg).Keys| == |channels.Keys|;
    }
  }

  function PlainWith(v: View, now: map<nat, int>, plain: seq<nat>, p: nat): seq<nat> {
    if WantedIn(v, now, Plain, p) then plain + [v.items[p].msg] else plain
  }

  function ChannelsWith(v: View, now: map<nat, int>, channels: map<nat, Batch>, p: nat): map<nat, Batch> {
    if Wanted(v, now, p) && v.items[p].scope.InChannel?
    then Join(channels, v.items[p].scope.channel, v.items[p].msg) else channels
  }

  lemma CollectChannel(v: View, part: map<nat, int>, plain: seq<nat>, channels: map<nat, Batch>, p: nat, x: int, c: nat)
    requires Collected(v, part, plain, channels) && p !in part
    ensures var now := part[p := x];
            var channels' := ChannelsWith(v, now, channels, p);
            && (c in channels' <==> HasWanted(v, now, InChannel(c)))
            && (c in channels' ==> Gathers(v, now, InChannel(c), channels'[c].messages))
  {
    var now := part[p := x];
    var joins := WantedIn(v, now, InChannel(c), p);
    if c in channels {
      GatherOne(v, part, InChannel(c), channels[c].messages, p, x);
      assert ChannelsWith(v, now, channels, p)[c].messages
          == if joins then channels[c].messages + [v.items[p].msg] else channels[c].messages;
    } else {
      assert Gathers(v, part, InChannel(c), []) by {
        assert forall m, q :: !Shows(v, part, InChannel(c), m, q);
      }
      GatherOne(v, part, InChannel(c), [], p, x);
      assert c in ChannelsWith(v, now, channels, p) <==> joins;
      assert joins ==> ChannelsWith(v, now, channels, p)[c].messages == [] + [v.items[p].msg];
    }
  }

  lemma CollectOne(v: View, part: map<nat, int>, plain: seq<nat>, channels: map<nat, Batch>, p: nat, x: int)
    requires Collected(v, part, plain, channels) && p !in part
    ensures var now := part[p := x];
            Collected(v, now, PlainWith(v, now, plain, p), ChannelsWith(v, now, channels, p))
  {
    var now := part[p := x];
    GatherOne(v, part, Plain, plain, p, x);
    var channels' := ChannelsWith(v, now, channels, p);
    forall c
      ensures c in channels' <==> HasWanted(v, now, InChannel(c))
      ensures c in channels' ==> Gathers(v, now, InChannel(c), channels'[c].messages)
    {
      CollectChannel(v, part, plain, channels, p, x, c);
    }
    if Wanted(v, now, p) && v.items[p].scope.InChannel? {
      JoinIndexed(channels, v.items[p].scope.channel, v.items[p].msg);
    }
  }

  /** The real id of a page with a temporary one. */
  function Final(x: int, requestId: int, byIndex: seq<int>): int {
    if x >= 0 then x
    else if x == -1 then requestId
    else if -x - 2 < |byIndex| then byIndex[-x - 2] else 0
  }

  /** The collected lists have a place for the page. */
  predicate Placed(v: View, plain: seq<nat>, channels: map<nat, Batch>, p: nat)
    requires p in v.items
  {
    match v.items[p].scope
    case Plain => plain != []
    case InChannel(c) => c in channels
  }

  lemma WantedIsPlaced(v: View, pending: map<nat, int>, plain: seq<nat>, channels: map<nat, Batch>, p: nat)
    requires Collected(v, pending, plain, channels) && Wanted(v, pending, p)
    ensures Placed(v, plain, channels, p)
  {
    assert WantedIn(v, pending, v.items[p].scope, p);
    match v.items[p].scope {
      case Plain =>
        assert Shows(v, pending, Plain, v.items[p].msg, p);
        assert v.items[p].msg in plain;
      case InChannel(c) => assert HasWanted(v, pending, InChannel(c));
    }
  }

  /** The id of the request for a scope. */
  function IdFor(channels: map<nat, Batch>, requestId: int, byIndex: seq<int>, scope: Scope): int {
    match scope
    case Plain => requestId
    case InChannel(c) => if c in channels && channels[c].index < |byIndex| then byIndex[channels[c].index] else 0
  }

  /** The scopes that a request is sent for. */
  function Scopes(plain: seq<nat>, channels: map<nat, Batch>): (scopes: set<Scope>)
    ensures Plain in scopes <==> plain != []
    ensures forall c :: InChannel(c) in scopes <==> c in channels
  {
    (if plain == [] then {} else {Plain}) + set c | c in channels :: InChannel(c)
  }

  function IdsOf(plain: seq<nat>, channels: map<nat, Batch>, requestId: int, byIndex: seq<int>): map<Scope, int> {
    map scope | scope in Scopes(plain, channels) :: IdFor(channels, requestId, byIndex, scope)
  }

  /** The temporary ids are told apart: a wanted page ends with the id for its scope, others keep theirs. */
  lemma MarksDecode(v: View, pending: map<nat, int>, plain: seq<nat>, channels: map<nat, Batch>,
                    requestId: int, byIndex: seq<int>, p: nat)
    requires Indexed(channels) && |byIndex| == |channels| && p in pending && pending[p] >= 0
    requires Wanted(v, pending, p) ==> Placed(v, plain, channels, p)
    ensures Final(Marked(v, pending, channels, p), requestId, byIndex)
         == if Wanted(v, pending, p) then IdFor(channels, requestId, byIndex, v.items[p].scope) else pending[p]
  {
  }

  /** A channel that joins does not move the ones before it, so the marks given so far stay right. */
  lemma MarksStay(v: View, was: map<nat, int>, part: map<nat, int>, plain: seq<nat>, channels: map<nat, Batch>,
                  p: nat, q: nat)
    requires Collected(v, part, plain, channels) && q in part && q in was && part[q] == was[q]
    ensures Marked(v, was, ChannelsWith(v, was, channels, p), q) == Marked(v, was, channels, q)
  {
    if Wanted(v, was, q) && v.items[q].scope.InChannel? {
      assert WantedIn(v, part, v.items[q].scope, q);
      assert HasWanted(v, part, InChannel(v.items[q].scope.channel));
    }
    if Wanted(v, was, p) && v.items[p].scope.InChannel? {
      JoinIndexed(channels, v.items[p].scope.channel, v.items[p].msg);
    }
  }

  /** How long until the first unsent page falls due, if that is before the end of time. */
  ghost predicate Earliest(v: View, pending: map<nat, int>, wait: int) {
    && wait <= INT_MAX
    && (forall p | p in pending && p in v.till && pending[p] == 0 && v.till[p] > v.now :: wait <= v.till[p] - v.now)
    && (wait == INT_MAX || exists p :: p in pending && p in v.till && pending[p] == 0 && v.till[p] - v.now == wait > 0)
  }

  /** Fresh ids, one for each request. */
  ghost predicate SentOut(plain: seq<nat>, channels: map<nat, Batch>, first: int, next: int,
                          requestId: int, byIndex: seq<int>)
  {
    var start := if plain == [] then first else first + 1;
    && |byIndex| == |channels| && start <= next
    && requestId == (if plain == [] then 0 else first)
    && (forall c | c in channels :: channels[c].index < |byIndex| && start <= byIndex[channels[c].index] < next)
    && (forall c, d | c in channels && d in channels
          && byIndex[channels[c].index] == byIndex[channels[d].index] :: c == d)
  }

  function MessagesFor(plain: seq<nat>, channels: map<nat, Batch>, scope: Scope): seq<nat> {
    match scope
    case Plain => plain
    case InChannel(c) => if c in channels then channels[c].messages else []
  }

  lemma IdFresh(plain: seq<nat>, channels: map<nat, Batch>, first: int, next: int, requestId: int, byIndex: seq<int>,
                a: Scope, b: Scope)
    requires SentOut(plain, channels, first, next, requestId, byIndex)
    requires a in Scopes(plain, channels) && b in Scopes(plain, channels)
    ensures first <= IdFor(channels, requestId, byIndex, a) < next
    ensures IdFor(channels, requestId, byIndex, a) == IdFor(channels, requestId, byIndex, b) ==> a == b
  {
    assert a.InChannel? ==> a.channel in channels;
    assert b.InChannel? ==> b.channel in channels;
  }

  /** The history after the requests were sent. */
  function SentWith(sent: map<int, Sent>, v: View, pending: map<nat, int>, ids: map<Scope, int>,
                    plain: seq<nat>, channels: map<nat, Batch>): map<int, Sent>
    requires forall a, b | a in ids && b in ids && ids[a] == ids[b] :: a == b
  {
    sent + map a | a in ids :: ids[a] := Sent(a, MessagesFor(plain, channels, a), PagesIn(v, pending, a))
  }

  lemma SentWithAt(sent: map<int, Sent>, v: View, pending: map<nat, int>, ids: map<Scope, int>,
                   plain: seq<nat>, channels: map<nat, Batch>, first: int)
    requires forall a, b | a in ids && b in ids && ids[a] == ids[b] :: a == b
    requires (forall id | id in sent :: id < first) && (forall a | a in ids :: first <= ids[a])
    ensures var sent' := SentWith(sent, v, pending, ids, plain, channels);
            && sent'.Keys == sent.Keys + ids.Values
            && (forall id | id in sent :: sent'[id] == sent[id])
            && (forall a | a in ids ::
                  sent'[ids[a]] == Sent(a, MessagesFor(plain, channels, a), PagesIn(v, pending, a)))
  {
  }

  lemma CollectedScopes(v: View, pending: map<nat, int>, plain: seq<nat>, channels: map<nat, Batch>, scope: Scope)
    requires Collected(v, pending, plain, channels)
    ensures HasWanted(v, pending, scope) <==> match scope case Plain => plain != [] case InChannel(c) => c in channels
    ensures Gathers(v, pending, scope, MessagesFor(plain, channels, scope))
  {
    match scope {
      case Plain =>
        if plain != [] {
          assert plain[0] in plain;
        }
        if p :| WantedIn(v, pending, Plain, p) {
          WantedIsPlaced(v, pending, plain, channels, p);
        }
      case InChannel(c) =>
        if c !in channels {
          assert forall m, q :: !Shows(v, pending, scope, m, q) by {
            assert !HasWanted(v, pending, scope);
          }
        }
    }
  }

  lemma FinalIsMark(s: State, v: View, plain: seq<nat>, channels: map<nat, Batch>,
                    requestId: int, byIndex: seq<int>, ids: map<Scope, int>, p: nat)
    requires Collected(v, s.pending, plain, channels) && p in s.pending && s.pending[p] >= 0
    requires ids == IdsOf(plain, channels, requestId, byIndex) && |byIndex| == |channels|
    ensures Final(Marked(v, s.pending, channels, p), requestId, byIndex) == MarkOf(v, s.pending, ids, p)
  {
    if Wanted(v, s.pending, p) {
      WantedIsPlaced(v, s.pending, plain, channels, p);
    }
    MarksDecode(v, s.pending, plain, channels, requestId, byIndex, p);
  }

  /** Ids not handed out before, one for each scope. */
  ghost predicate OwnIds(ids: map<Scope, int>, first: int, next: int) {
    && (forall a | a in ids :: first <= ids[a] < next)
    && (forall a, b | a in ids && b in ids && ids[a] == ids[b] :: a == b)
  }

  lemma IdsAreOwn(plain: seq<nat>, channels: map<nat, Batch>, first: int, next: int, requestId: int, byIndex: seq<int>)
    requires SentOut(plain, channels, first, next, requestId, byIndex)
    ensures OwnIds(IdsOf(plain, channels, requestId, byIndex), first, next)
  {
    var ids := IdsOf(plain, channels, requestId, byIndex);
    forall a, b | a in ids && b in ids
      ensures first <= ids[a] < next && (ids[a] == ids[b] ==> a == b)
    {
      IdFresh(plain, channels, first, next, requestId, byIndex, a, b);
    }
  }

  lemma SentLists(s: State, v: View, plain: seq<nat>, channels: map<nat, Batch>, ids: map<Scope, int>, next: int,
                  scope: Scope)
    requires Invariant(s) && Collected(v, s.pending, plain, channels) && OwnIds(ids, s.next, next)
    requires ids.Keys == Scopes(plain, channels)
    ensures scope in ids <==> HasWanted(v, s.pending, scope)
    ensures var sent := SentWith(s.sent, v, s.pending, ids, plain, channels);
            scope in ids ==>
              ids[scope] in sent && sent[ids[scope]].scope == scope && Lists(v, s.pending, sent[ids[scope]])
  {
    SentWithAt(s.sent, v, s.pending, ids, plain, channels, s.next);
    CollectedScopes(v, s.pending, plain, channels, scope);
  }

  function After(s: State, v: View, plain: seq<nat>, channels: map<nat, Batch>, ids: map<Scope, int>, next: int,
                 pending: map<nat, int>): State
    requires OwnIds(ids, s.next, next)
  {
    State(pending, next, SentWith(s.sent, v, s.pending, ids, plain, channels), s.answered)
  }

  lemma PassesRequest(s: State, v: View, plain: seq<nat>, channels: map<nat, Batch>, ids: map<Scope, int>, next: int,
                      pending: map<nat, int>)
    requires Invariant(s) && Collected(v, s.pending, plain, channels) && OwnIds(ids, s.next, next) && s.next <= next
    requires ids.Keys == Scopes(plain, channels)
    ensures Requested(s, v, After(s, v, plain, channels, ids, next, pending), ids)
  {
    SentWithAt(s.sent, v, s.pending, ids, plain, channels, s.next);
    var t := After(s, v, plain, channels, ids, next, pending);
    forall scope
      ensures scope in ids <==> HasWanted(v, s.pending, scope)
      ensures scope in ids ==>
                ids[scope] in t.sent && t.sent[ids[scope]].scope == scope && Lists(v, s.pending, t.sent[ids[scope]])
    {
      SentLists(s, v, plain, channels, ids, next, scope);
    }
  }

  lemma PassesMark(s: State, v: View, plain: seq<nat>, channels: map<nat, Batch>,
                   requestId: int, byIndex: seq<int>, ids: map<Scope, int>, pending: map<nat, int>)
    requires Invariant(s) && Collected(v, s.pending, plain, channels) && |byIndex| == |channels|
    requires ids == IdsOf(plain, channels, requestId, byIndex)
    requires pending == FinalAll(MarkAll(v, s.pending, channels), requestId, byIndex)
    ensures pending.Keys == s.pending.Keys
    ensures forall p | p in s.pending :: pending[p] == MarkOf(v, s.pending, ids, p)
  {
    NonNegative(s);
    forall p | p in s.pending
      ensures p in pending && pending[p] == MarkOf(v, s.pending, ids, p)
    {
      FinalIsMark(s, v, plain, channels, requestId, byIndex, ids, p);
    }
  }

  /** The three passes together do what a pass is meant to do. */
  lemma PassesResolve(s: State, v: View, plain: seq<nat>, channels: map<nat, Batch>, next: int,
                      requestId: int, byIndex: seq<int>, pending: map<nat, int>)
    returns (ids: map<Scope, int>, t: State)
    requires Invariant(s) && Collected(v, s.pending, plain, channels)
    requires SentOut(plain, channels, s.next, next, requestId, byIndex)
    requires pending == FinalAll(MarkAll(v, s.pending, channels), requestId, byIndex)
    ensures ids == IdsOf(plain, channels, requestId, byIndex) && OwnIds(ids, s.next, next)
    ensures t == After(s, v, plain, channels, ids, next, pending) && Resolved(s, v, t, ids)
  {
    ids := IdsOf(plain, channels, requestId, byIndex);
    IdsAreOwn(plain, channels, s.next, next, requestId, byIndex);
    t := After(s, v, plain, channels, ids, next, pending);
    PassesRequest(s, v, plain, channels, ids, next, pending);
    PassesMark(s, v, plain, channels, requestId, byIndex, ids, pending);
  }

  // ---------- what the requests ask ----------

  /** The requests sent are the ones the history knows, with their messages. */
  ghost predicate Records(requests: map<int, Asked>, sent: map<int, Sent>) {
    && requests.Keys == sent.Keys
    && (forall id | id in sent :: requests[id] == Asked(sent[id].scope, sent[id].messages))
  }

  /** The request for the common messages went out, if there are any, and those for some channels. */
  ghost predicate AskedFor(was: map<int, Asked>, now: map<int, Asked>, plain: seq<nat>, channels: map<nat, Batch>,
                           done: set<nat>, requestId: int, byIndex: seq<int>)
  {
    && done <= channels.Keys && Indexed(channels) && |byIndex| == |channels|
    && (forall id | id in was :: id in now && now[id] == was[id])
    && (plain != [] ==> requestId in now && now[requestId] == Asked(Plain, plain))
    && (forall c | c in done ::
          && byIndex[channels[c].index] in now
          && now[byIndex[channels[c].index]] == Asked(InChannel(c), channels[c].messages))
    && (forall id | id in now && id !in was ::
          match now[id].scope
          case Plain => plain != [] && id == requestId
          case InChannel(c) => c in done && byIndex[channels[c].index] == id)
  }

  /** The place of a channel is its own. */
  lemma PlaceIsOwn(channels: map<nat, Batch>, byIndex: seq<int>, c: nat, id: int)
    requires Indexed(channels) && |byIndex| == |channels| && c in channels
    ensures byIndex[channels[c].index := id][channels[c].index] == id
    ensures forall d | d in channels && d != c ::
              byIndex[channels[c].index := id][channels[d].index] == byIndex[channels[d].index]
  {
  }

  lemma AskedOne(was: map<int, Asked>, now: map<int, Asked>, plain: seq<nat>, channels: map<nat, Batch>,
                 done: set<nat>, requestId: int, byIndex: seq<int>, c: nat, id: int)
    requires AskedFor(was, now, plain, channels, done, requestId, byIndex) && c in channels && c !in done && id !in now
    ensures channels[c].index < |byIndex|
    ensures AskedFor(was, now[id := Asked(InChannel(c), channels[c].messages)], plain, channels,
                     done + {c}, requestId, byIndex[channels[c].index := id])
  {
    PlaceIsOwn(channels, byIndex, c, id);
  }

  /** How far the sending of the requests is. */
  ghost predicate Sending(was: map<int, Asked>, now: map<int, Asked>, plain: seq<nat>, channels: map<nat, Batch>,
                          done: set<nat>, first: int, next: int, requestId: int, byIndex: seq<int>)
  {
    var start := if plain == [] then first else first + 1;
    && AskedFor(was, now, plain, channels, done, requestId, byIndex)
    && start <= next && requestId == (if plain == [] then 0 else first)
    && (forall c | c in done :: start <= byIndex[channels[c].index] < next)
    && (forall c, d | c in done && d in done && byIndex[channels[c].index] == byIndex[channels[d].index] :: c == d)
    && (forall id | id in now :: id < next)
  }

  lemma SendingStarts(was: map<int, Asked>, now: map<int, Asked>, plain: seq<nat>, channels: map<nat, Batch>,
                      first: int, requestId: int, byIndex: seq<int>)
    requires Indexed(channels) && |byIndex| == |channels| && forall id | id in was :: id < first
    requires now == if plain == [] then was else was[first := Asked(Plain, plain)]
    requires requestId == if plain == [] then 0 else first
    ensures Sending(was, now, plain, channels, {}, first, if plain == [] then first else first + 1, requestId, byIndex)
  {
  }

  lemma SendingNext(was: map<int, Asked>, now: map<int, Asked>, plain: seq<nat>, channels: map<nat, Batch>,
                    done: set<nat>, first: int, next: int, requestId: int, byIndex: seq<int>, c: nat)
    requires Sending(was, now, plain, channels, done, first, next, requestId, byIndex) && c in channels && c !in done
    ensures channels[c].index < |byIndex|
    ensures Sending(was, now[next := Asked(InChannel(c), channels[c].messages)], plain, channels, done + {c},
                    first, next + 1, requestId, byIndex[channels[c].index := next])
  {
    AskedOne(was, now, plain, channels, done, requestId, byIndex, c, next);
    PlaceIsOwn(channels, byIndex, c, next);
  }

  lemma SendingEnds(was: map<int, Asked>, now: map<int, Asked>, plain: seq<nat>, channels: map<nat, Batch>,
                    first: int, next: int, requestId: int, byIndex: seq<int>)
    requires Sending(was, now, plain, channels, channels.Keys, first, next, requestId, byIndex)
    ensures SentOut(plain, channels, first, next, requestId, byIndex)
    ensures AskedFor(was, now, plain, channels, channels.Keys, requestId, byIndex)
  {
  }

  lemma AskedAt(was: map<int, Asked>, now: map<int, Asked>, plain: seq<nat>, channels: map<nat, Batch>,
                requestId: int, byIndex: seq<int>, a: Scope)
    requires AskedFor(was, now, plain, channels, channels.Keys, requestId, byIndex) && a in Scopes(plain, channels)
    ensures var id := IdFor(channels, requestId, byIndex, a);
            id in now && now[id] == Asked(a, MessagesFor(plain, channels, a))
  {
    assert a.InChannel? ==> a.channel in channels.Keys;
  }

  lemma AskedIsFor(was: map<int, Asked>, now: map<int, Asked>, plain: seq<nat>, channels: map<nat, Batch>,
                   requestId: int, byIndex: seq<int>, id: int)
    requires AskedFor(was, now, plain, channels, channels.Keys, requestId, byIndex) && id in now && id !in was
    ensures now[id].scope in Scopes(plain, channels) && IdFor(channels, requestId, byIndex, now[id].scope) == id
  {
  }

  lemma RecordsGrow(was: map<int, Asked>, now: map<int, Asked>, sent: map<int, Sent>, sent': map<int, Sent>,
                    ids: map<Scope, int>)
    requires Records(was, sent) && sent'.Keys == sent.Keys + ids.Values
    requires forall id | id in was :: id in now && now[id] == was[id]
    requires forall id | id in now && id !in was :: id in ids.Values
    requires forall id | id in sent :: sent'[id] == sent[id]
    requires forall a | a in ids :: ids[a] in now && now[ids[a]] == Asked(sent'[ids[a]].scope, sent'[ids[a]].messages)
    ensures Records(now, sent')
  {
    forall id | id in ids.Values
      ensures id in now && now[id] == Asked(sent'[id].scope, sent'[id].messages)
    {
      var a :| a in ids && ids[a] == id;
    }
    assert forall id :: id in now.Keys <==> id in sent'.Keys;
  }

  /** When all went out, what was sent is what the history says was sent. */
  lemma AskedIsSent(s: State, v: View, was: map<int, Asked>, now: map<int, Asked>,
                    plain: seq<nat>, channels: map<nat, Batch>, next: int,
                    requestId: int, byIndex: seq<int>, ids: map<Scope, int>)
    requires Invariant(s) && Records(was, s.sent)
    requires AskedFor(was, now, plain, channels, channels.Keys, requestId, byIndex)
    requires ids == IdsOf(plain, channels, requestId, byIndex) && OwnIds(ids, s.next, next)
    ensures Records(now, SentWith(s.sent, v, s.pending, ids, plain, channels))
  {
    SentWithAt(s.sent, v, s.pending, ids, plain, channels, s.next);
    forall a | a in ids
      ensures ids[a] in now && now[ids[a]] == Asked(a, MessagesFor(plain, channels, a))
    {
      AskedAt(was, now, plain, channels, requestId, byIndex, a);
    }
    forall id | id in now && id !in was
      ensures id in ids.Values
    {
      AskedIsFor(was, now, plain, channels, requestId, byIndex, id);
      assert ids[now[id].scope] == id;
    }
    RecordsGrow(was, now, s.sent, SentWith(s.sent, v, s.pending, ids, plain, channels), ids);
  }

  function MarkAll(v: View, pending: map<nat, int>, channels: map<nat, Batch>): map<nat, int> {
    map p | p in pending :: Marked(v, pending, channels, p)
  }

  function FinalAll(marked: map<nat, int>, requestId: int, byIndex: seq<int>): map<nat, int> {
    map p | p in marked :: Final(marked[p], requestId, byIndex)
  }

  lemma NonNegative(s: State)
    requires Invariant(s)
    ensures forall p | p in s.pending :: s.pending[p] >= 0
  {
  }

  /** The temporary ids are in range, and there is none when nothing is to be sent. */
  lemma MarksInRange(v: View, pending: map<nat, int>, plain: seq<nat>, channels: map<nat, Batch>)
    requires Collected(v, pending, plain, channels) && forall p | p in pending :: pending[p] >= 0
    ensures var marked := MarkAll(v, pending, channels);
            && (forall p | p in marked && marked[p] < -1 :: -marked[p] - 2 < |channels|)
            && (plain == [] && |channels| == 0 ==>
                  forall requestId, byIndex :: FinalAll(marked, requestId, byIndex) == marked)
  {
    var marked := MarkAll(v, pending, channels);
    forall p | p in pending && Wanted(v, pending, p)
      ensures marked[p] < -1 ==> -marked[p] - 2 < |channels|
      ensures plain != [] || |channels| > 0
    {
      WantedIsPlaced(v, pending, plain, channels, p);
    }
    if plain == [] && |channels| == 0 {
      assert forall p | p in marked :: marked[p] == pending[p];
    }
  }

  function Done(was: map<nat, int>, remaining: set<nat>): map<nat, int> {
    map p | p in was && p !in remaining :: was[p]
  }

  /** How far the pass over the pending pages is. */
  ghost predicate Collecting(v: View, was: map<nat, int>, remaining: set<nat>, now: map<nat, int>,
                             plain: seq<nat>, channels: map<nat, Batch>, wait: int)
  {
    && remaining <= was.Keys == now.Keys
    && Collected(v, Done(was, remaining), plain, channels) && Earliest(v, Done(was, remaining), wait)
    && (forall p | p in was :: now[p] == if p in remaining then was[p] else Marked(v, was, channels, p))
  }

  function Sooner(v: View, now: map<nat, int>, wait: int, p: nat): int {
    if p in now && p in v.till && now[p] == 0 && v.now < v.till[p] < v.now + wait then v.till[p] - v.now else wait
  }

  lemma CollectingStep(v: View, was: map<nat, int>, remaining: set<nat>, now: map<nat, int>,
                       plain: seq<nat>, channels: map<nat, Batch>, wait: int, p: nat)
    requires Collecting(v, was, remaining, now, plain, channels, wait) && p in remaining && Known(v, was)
    ensures var channels' := ChannelsWith(v, now, channels, p);
            Collecting(v, was, remaining - {p}, now[p := Marked(v, now, channels', p)],
                       PlainWith(v, now, plain, p), channels', Sooner(v, now, wait, p))
  {
    var part := Done(was, remaining);
    var part' := Done(was, remaining - {p});
    assert part' == part[p := was[p]];
    CollectOne(v, part, plain, channels, p, was[p]);
    SameAt(v, now, part', plain, channels, wait, p);
    SoonerKeeps(v, part, wait, p, was[p]);
    MarksStep(v, was, part, remaining, now, plain, channels, p);
  }

  /** What a page adds depends only on its own entry. */
  lemma SameAt(v: View, a: map<nat, int>, b: map<nat, int>, plain: seq<nat>, channels: map<nat, Batch>, wait: int,
               p: nat)
    requires p in a && p in b && a[p] == b[p]
    ensures PlainWith(v, a, plain, p) == PlainWith(v, b, plain, p)
    ensures ChannelsWith(v, a, channels, p) == ChannelsWith(v, b, channels, p)
    ensures Sooner(v, a, wait, p) == Sooner(v, b, wait, p)
    ensures Marked(v, a, channels, p) == Marked(v, b, channels, p)
  {
  }

  lemma MarksStep(v: View, was: map<nat, int>, part: map<nat, int>, remaining: set<nat>, now: map<nat, int>,
                  plain: seq<nat>, channels: map<nat, Batch>, p: nat)
    requires Collected(v, part, plain, channels) && part == Done(was, remaining) && p in remaining
    requires remaining <= was.Keys == now.Keys
    requires forall q | q in was :: now[q] == if q in remaining then was[q] else Marked(v, was, channels, q)
    ensures var channels' := ChannelsWith(v, now, channels, p);
            forall q | q in was :: now[p := Marked(v, now, channels', p)][q]
                                == if q in remaining - {p} then was[q] else Marked(v, was, channels', q)
  {
    var channels' := ChannelsWith(v, now, channels, p);
    SameAt(v, now, was, plain, channels, 0, p);
    SameAt(v, now, was, plain, channels', 0, p);
    forall q | q in was && q !in remaining
      ensures Marked(v, was, channels', q) == Marked(v, was, channels, q)
    {
      MarksStay(v, was, part, plain, channels, p, q);
    }
  }

  lemma SoonerKeeps(v: View, part: map<nat, int>, wait: int, p: nat, x: int)
    requires Earliest(v, part, wait) && p !in part && p in v.till
    ensures Earliest(v, part[p := x], Sooner(v, part[p := x], wait, p))
  {
    var now := part[p := x];
    if wait < INT_MAX {
      var q :| q in part && q in v.till && part[q] == 0 && v.till[q] - v.now == wait > 0;
      assert q in now && now[q] == 0;
    }
  }

  /** The pages of a request that are still waited for when its reply came. */
  function GivenUp(pending: map<nat, int>, till: map<nat, int>, id: int): set<nat> {
    set p | p in pending && pending[p] == id && p in till && till[p] > 0
  }

  function Zeroed(till: map<nat, int>, pages: set<nat>): map<nat, int> {
    map p | p in till :: if p in pages then 0 else till[p]
  }

  /** The pending pages while those of a request are taken out. */
  function Left(was: map<nat, int>, remaining: set<nat>, id: int): map<nat, int> {
    map p | p in was && (p in remaining || was[p] != id) :: was[p]
  }

  /** What a reply gives up: the pages still mapped to it that have a time, which they lose. */
  lemma GivesUp(pending: map<nat, int>, till: map<nat, int>, id: int, p: nat)
    ensures var gone := GivenUp(pending, till, id);
            var unsettled := p in pending && pending[p] == id && p in till && till[p] > 0;
            && (p in gone <==> unsettled) && (p in Zeroed(till, gone) <==> p in till)
            && (p in till ==> Zeroed(till, gone)[p] == if unsettled then 0 else till[p])
  {
  }

  lemma DropOne(was: map<nat, int>, till: map<nat, int>, remaining: set<nat>, id: int, p: nat)
    requires p in remaining && p in was
    ensures Left(was, remaining - {p}, id)
         == if was[p] == id then Left(was, remaining, id) - {p} else Left(was, remaining, id)
    ensures var gone, gone' := GivenUp(Done(was, remaining), till, id), GivenUp(Done(was, remaining - {p}), till, id);
            && p !in gone
            && gone' == (if was[p] == id && p in till && till[p] > 0 then gone + {p} else gone)
            && Zeroed(till, gone') == if was[p] == id && p in till && till[p] > 0 then Zeroed(till, gone)[p := 0]
                                      else Zeroed(till, gone)
  {
  }

  /** The timer when a page falls due in so many seconds: it is set anew, with a millisecond to spare, unless sooner. */
  function TimerFor(timer: Option<int>, seconds: int): Option<int> {
    var left := if seconds < 0 then 0 else seconds * 1000;
    if timer.Some? && timer.value < seconds * 1000 then timer else Some(left + 1)
  }

  // ---------- the timer over whole runs ----------

  /** The pending pages, the times of all pages, the timer with its milliseconds left, and the time in seconds. */
  datatype Timing = Timing(pending: map<nat, int>, till: map<nat, int>, timer: Option<int>, now: int)

  /** An unsent page that is still to fall due. */
  predicate ToCome(x: Timing, p: nat) {
    p in x.pending && x.pending[p] == 0 && p in x.till && x.till[p] > x.now
  }

  /** For each such page the timer is set, to fire a millisecond after the time of the page at the latest. */
  ghost predicate OnTime(x: Timing) {
    forall p | ToCome(x, p) :: x.timer.Some? && x.timer.value <= (x.till[p] - x.now) * 1000 + 1
  }

  /** Times fit 32 bits, and the clock is past its beginning. */
  ghost predicate InRange(x: Timing) {
    x.now > 0 && forall p | p in x.till :: 0 <= x.till[p] <= INT_MAX
  }

  function AskLater(x: Timing, p: nat, failed: bool): Timing {
    if failed || p !in x.till || x.till[p] == 0 then x
    else x.(pending := if p in x.pending then x.pending else x.pending[p := 0],
            timer := TimerFor(x.timer, x.till[p] - x.now))
  }

  function Dropped(x: Timing, p: nat): Timing {
    x.(pending := x.pending - {p}, timer := if x.pending - {p} == map[] then None else x.timer)
  }

  function AllDropped(x: Timing): Timing {
    x.(pending := map[], timer := None)
  }

  predicate HasTime(x: Timing, p: nat) {
    p in x.till && x.till[p] > 0
  }

  /** The page itself changes: without a time it is dropped, and with its first time it is asked for later. */
  function Updated(x: Timing, p: nat, till: int, failed: bool): Timing {
    var y := x.(till := x.till[p := till]);
    if HasTime(x, p) then if till <= 0 then Dropped(y, p) else y
    else if till > 0 then AskLater(y, p, failed) else y
  }

  function Replied(x: Timing, id: int): Timing {
    x.(pending := Left(x.pending, {}, id), till := Zeroed(x.till, GivenUp(x.pending, x.till, id)))
  }

  function Passed(x: Timing, seconds: nat): Timing {
    x.(now := x.now + seconds,
       timer := match x.timer
         case None => None
         case Some(left) => Some(if left < seconds * 1000 then 0 else left - seconds * 1000))
  }

  function TimerAfter(timer: Option<int>, wait: int): Option<int> {
    if wait == INT_MAX then timer else Some(if wait < DAY then wait * 1000 else DAY * 1000)
  }

  /** A page that loses its time is not pending any more; one that gets its first is, with the timer set. */
  lemma PageChanges(x: Timing, p: nat, till: int)
    requires InRange(x) && 0 <= till
    ensures var was := if p in x.till then x.till[p] else 0;
            var y := Updated(x, p, till, false);
            && y.till == x.till[p := till] && y.now == x.now
            && (was > 0 && till == 0 ==> y.pending == x.pending - {p})
            && (was == 0 && till > 0 ==> p in y.pending && y.pending - {p} == x.pending - {p} && y.timer.Some?)
            && ((was > 0 <==> till > 0) ==> y.pending == x.pending && y.timer == x.timer)
  {
  }

  /** As time passes the timer comes nearer, and stays at its end until it fires. */
  lemma TimePasses(x: Timing, seconds: nat)
    ensures var y := Passed(x, seconds);
            && y.now == x.now + seconds && y.pending == x.pending && y.till == x.till
            && (y.timer == None <==> x.timer == None)
            && (x.timer.Some? && x.timer.value >= 1000 * seconds ==> y.timer.value == x.timer.value - 1000 * seconds)
            && (x.timer.Some? && x.timer.value < 1000 * seconds ==> y.timer.value == 0)
  {
  }

  /** A page asked for later moves the timer to just behind its own time, unless the timer fires before that time. */
  lemma TimerMoves(x: Timing, p: nat)
    requires InRange(x) && p in x.till && x.till[p] > 0
    ensures var left := (x.till[p] - x.now) * 1000;
            var y := AskLater(x, p, false);
            && y.timer.Some? && p in y.pending
            && (x.timer.Some? && x.timer.value < left ==> y.timer == x.timer)
            && (x.timer == None || x.timer.value >= left ==> y.timer.value == if left > 0 then left + 1 else 1)
    ensures AskLater(x, p, true) == x
  {
  }

  /**
   * A pass sets the timer for the first unsent page still to fall due, but to a day at most; without such a page, and
   * one beyond the largest time counts as none, the timer stays as it was.
   */
  lemma TimerForFirst(v: View, pending: map<nat, int>, timer: Option<int>, wait: int)
    requires Earliest(v, pending, wait)
    ensures var later := map p | p in pending && p in v.till && pending[p] == 0 && v.now < v.till[p] < v.now + INT_MAX
                           :: (v.till[p] - v.now) * 1000;
            var next := TimerAfter(timer, wait);
            if later == map[] then next == timer
            else && next.Some? && next.value <= 86_400_000
                 && (forall p | p in later :: next.value <= later[p])
                 && (next.value == 86_400_000 || exists p :: p in later && next.value == later[p])
  {
    var later := map p | p in pending && p in v.till && pending[p] == 0 && v.now < v.till[p] < v.now + INT_MAX
                   :: (v.till[p] - v.now) * 1000;
    if wait < INT_MAX {
      var p :| p in pending && p in v.till && pending[p] == 0 && v.till[p] - v.now == wait > 0;
      assert p in later;
    } else {
      assert later == map[];
    }
  }

  /** A pass over the pending pages: it sends some of them, and sets the timer for the others. */
  ghost predicate Woken(x: Timing, y: Timing) {
    && y == x.(pending := y.pending, timer := y.timer) && y.pending.Keys == x.pending.Keys
    && (forall p | p in y.pending && y.pending[p] == 0 :: x.pending[p] == 0)
    && exists wait :: Earliest(View(x.now, x.till, map[]), x.pending, wait) && y.timer == TimerAfter(x.timer, wait)
  }

  /** A pass as it is resolved is one for the timer. */
  lemma ResolvedWakes(x: Timing, y: Timing, v: View, s: State, t: State, ids: map<Scope, int>, wait: int)
    requires Invariant(s) && Resolved(s, v, t, ids) && Earliest(v, s.pending, wait)
    requires x.pending == s.pending && x.till == v.till && x.now == v.now
    requires y == Timing(t.pending, x.till, TimerAfter(x.timer, wait), x.now)
    ensures Woken(x, y)
  {
    assert Earliest(View(x.now, x.till, map[]), x.pending, wait);
  }

  lemma AskedIsOnTime(x: Timing, p: nat)
    requires forall q | ToCome(x, q) && q != p :: x.timer.Some? && x.timer.value <= (x.till[q] - x.now) * 1000 + 1
    requires p in x.till && x.till[p] != 0
    ensures OnTime(AskLater(x, p, false))
  {
    var y := AskLater(x, p, false);
    forall q | ToCome(y, q)
      ensures y.timer.Some? && y.timer.value <= (y.till[q] - y.now) * 1000 + 1
    {
      assert q == p || ToCome(x, q);
    }
  }

  lemma WokenKeeps(x: Timing, y: Timing)
    requires InRange(x) && (OnTime(x) || x.timer == None) && Woken(x, y)
    ensures OnTime(y)
  {
    var wait :| Earliest(View(x.now, x.till, map[]), x.pending, wait) && y.timer == TimerAfter(x.timer, wait);
    forall p | ToCome(y, p)
      ensures y.timer.Some? && y.timer.value <= (y.till[p] - y.now) * 1000 + 1
    {
      assert ToCome(x, p) && wait <= x.till[p] - x.now < INT_MAX;
    }
  }

  lemma DroppedKeeps(x: Timing, y: Timing, p: nat)
    requires OnTime(x) && y == x.(till := y.till)
    requires forall q | q != p && q in y.till :: q in x.till && x.till[q] == y.till[q]
    ensures OnTime(Dropped(y, p)) && OnTime(AllDropped(y))
  {
    forall q | ToCome(Dropped(y, p), q)
      ensures ToCome(x, q) && q in y.pending - {p}
    {
    }
  }

  lemma RepliedKeeps(x: Timing, id: int)
    requires InRange(x) && OnTime(x)
    ensures OnTime(Replied(x, id)) && InRange(Replied(x, id))
  {
    assert forall q | ToCome(Replied(x, id), q) :: ToCome(x, q);
  }

  lemma PassedKeeps(x: Timing, seconds: nat)
    requires OnTime(x)
    ensures OnTime(Passed(x, seconds))
  {
    assert forall q | ToCome(Passed(x, seconds), q) :: ToCome(x, q);
  }

  /** An unsent page is moved before the time the timer is set for, and is not asked for anew. */
  predicate MovesBefore(x: Timing, p: nat, till: int, failed: bool) {
    && p in x.pending && x.pending[p] == 0 && till > x.now && (HasTime(x, p) || failed)
    && (x.timer == None || x.timer.value > (till - x.now) * 1000 + 1)
  }

  lemma UpdatedKeepsIff(x: Timing, p: nat, till: int, failed: bool)
    requires InRange(x) && OnTime(x)
    ensures OnTime(Updated(x, p, till, failed)) <==> !MovesBefore(x, p, till, failed)
  {
    var y := x.(till := x.till[p := till]);
    assert forall q | q != p :: ToCome(y, q) <==> ToCome(x, q);
    if HasTime(x, p) && till <= 0 {
      DroppedKeeps(x, y, p);
    } else if !HasTime(x, p) && till > 0 && !failed {
      AskedIsOnTime(y, p);
    } else {
      assert MovesBefore(x, p, till, failed) ==> ToCome(y, p);
    }
  }

  /** What can happen: the client's calls, a change of a page, time that passes, and the timer that fires. */
  datatype Event =
    | Asks(page: nat, failed: bool)
    | Changes(page: nat, till: int, failed: bool)
    | Drops(page: nat)
    | DropsAll
    | Replies(id: int)
    | Passes(seconds: nat)
    | Wakes(after: Timing)
    | Fires(after: Timing)

  ghost predicate CanHappen(x: Timing, e: Event) {
    match e
    case Changes(_, till, _) => 0 <= till <= INT_MAX
    case Wakes(y) => Woken(x, y)
    case Fires(y) => x.timer.Some? && Woken(x.(timer := None), y)
    case _ => true
  }

  function Happen(x: Timing, e: Event): Timing {
    match e
    case Asks(p, failed) => AskLater(x, p, failed)
    case Changes(p, till, failed) => Updated(x, p, till, failed)
    case Drops(p) => Dropped(x, p)
    case DropsAll => AllDropped(x)
    case Replies(id) => Replied(x, id)
    case Passes(seconds) => Passed(x, seconds)
    case Wakes(y) => y
    case Fires(y) => y
  }

  predicate Delays(x: Timing, e: Event) {
    e.Changes? && MovesBefore(x, e.page, e.till, e.failed)
  }

  /** The timer gets late for a page in exactly that case. */
  lemma LateIff(x: Timing, e: Event)
    requires InRange(x) && OnTime(x) && CanHappen(x, e)
    ensures InRange(Happen(x, e)) && (OnTime(Happen(x, e)) <==> !Delays(x, e))
  {
    match e
    case Asks(p, failed) =>
      if !failed && p in x.till && x.till[p] != 0 {
        AskedIsOnTime(x, p);
      }
    case Changes(p, till, failed) => UpdatedKeepsIff(x, p, till, failed);
    case Drops(p) => DroppedKeeps(x, x, p);
    case DropsAll => DroppedKeeps(x, x, 0);
    case Replies(id) => RepliedKeeps(x, id);
    case Passes(seconds) => PassedKeeps(x, seconds);
    case Wakes(y) => WokenKeeps(x, y);
    case Fires(y) => WokenKeeps(x.(timer := None), y);
  }

  ghost predicate NextOnTime(x: Timing, y: Timing) {
    exists e :: CanHappen(x, e) && !Delays(x, e) && y == Happen(x, e)
  }

  /** A run from no pending pages, in which no page is moved like that. */
  ghost predicate IsTimerRun(xs: seq<Timing>) {
    && |xs| > 0 && xs[0].pending == map[] && InRange(xs[0])
    && (forall i | 0 <= i < |xs| - 1 :: NextOnTime(xs[i], xs[i + 1]))
  }

  /** In all its states the timer is set in time for every unsent page that is still to fall due. */
  lemma {:induction false} TimerIsOnTime(xs: seq<Timing>, i: nat)
    requires IsTimerRun(xs) && i < |xs|
    ensures InRange(xs[i]) && OnTime(xs[i])
  {
    if i > 0 {
      TimerIsOnTime(xs, i - 1);
      assert NextOnTime(xs[i - 1], xs[i - 1 + 1]);
      var e :| CanHappen(xs[i - 1], e) && !Delays(xs[i - 1], e) && xs[i] == Happen(xs[i - 1], e);
      LateIff(xs[i - 1], e);
    }
  }

  /** A page asked for later and then moved to the next second: the timer is still set for its old time. */
  lemma MovedIsLate(p: nat, now: int, till: int)
    requires 0 < now && now + 2 < till <= INT_MAX
    ensures var x := AskLater(Timing(map[], map[p := till], None, now), p, false);
            OnTime(x) && !OnTime(Updated(x, p, now + 1, false))
  {
    var x := AskLater(Timing(map[], map[p := till], None, now), p, false);
    AskedIsOnTime(Timing(map[], map[p := till], None, now), p);
    UpdatedKeepsIff(x, p, now + 1, false);
  }

  class Client {
    var webPagesPending: map<nat, int>
    var webPagesTimer: Option<int> // the time left, in milliseconds, when active
    var nextRequest: int
    var requests: map<int, Asked> // what was sent
    var pendingTill: map<nat, int> // the pages themselves
    var failed: set<nat>
    ghost var state: State

    ghost predicate Valid()
      reads this
    {
      && Invariant(state) && webPagesPending == state.pending && nextRequest == state.next
      && Records(requests, state.sent)
      && (webPagesTimer.Some? ==> webPagesTimer.value >= 0)
    }

    ghost function Timed(now: int): Timing
      reads this
    {
      Timing(webPagesPending, pendingTill, webPagesTimer, now)
    }

    method CollectPage(v: View, p: nat, plain: seq<nat>, channels: map<nat, Batch>, wait: int)
      returns (plain': seq<nat>, channels': map<nat, Batch>, wait': int)
      requires p in webPagesPending && p in v.till && webPagesPending[p] >= 0
      modifies this`webPagesPending
      ensures plain' == PlainWith(v, old(webPagesPending), plain, p)
      ensures channels' == ChannelsWith(v, old(webPagesPending), channels, p)
      ensures webPagesPending == old(webPagesPending)[p := Marked(v, old(webPagesPending), channels', p)]
      ensures wait' == Sooner(v, old(webPagesPending), wait, p)
    {
      plain', channels', wait' := plain, channels, wait;
      if webPagesPending[p] > 0 {
        return;
      }
      if v.till[p] <= v.now {
        if p in v.items {
          var item := v.items[p];
          match item.scope {
            case InChannel(c) =>
              if c !in channels {
                channels' := channels[c := Batch(|channels|, [item.msg])];
              } else {
                channels' := channels[c := channels[c].(messages := channels[c].messages + [item.msg])];
              }
              webPagesPending := webPagesPending[p := -2 - channels'[c].index];
            case Plain =>
              plain' := plain + [item.msg];
              webPagesPending := webPagesPending[p := -1];
          }
        }
      } else if v.till[p] - v.now < wait {
        wait' := v.till[p] - v.now;
      }
    }

    /** The pass over the pending pages: collects the messages to ask for, and marks the pages with temporary ids. */
    method CollectPages(v: View) returns (plain: seq<nat>, channels: map<nat, Batch>, wait: int)
      requires Known(v, webPagesPending) && forall p | p in webPagesPending :: webPagesPending[p] >= 0
      modifies this`webPagesPending
      ensures Collected(v, old(webPagesPending), plain, channels) && Earliest(v, old(webPagesPending), wait)
      ensures webPagesPending == MarkAll(v, old(webPagesPending), channels)
    {
      plain, channels, wait := [], map[], INT_MAX;
      ghost var was := webPagesPending;
      var remaining := webPagesPending.Keys;
      assert Done(was, remaining) == map[];
      while remaining != {}
        invariant Collecting(v, was, remaining, webPagesPending, plain, channels, wait)
        decreases remaining
      {
        ghost var some := Member(remaining);
        var p :| p in remaining;
        CollectingStep(v, was, remaining, webPagesPending, plain, channels, wait, p);
        plain, channels, wait := CollectPage(v, p, plain, channels, wait);
        remaining := remaining - {p};
      }
      assert Done(was, remaining) == was;
    }

    method Request(asked: Asked) returns (id: int)
      modifies this`nextRequest, this`requests
      ensures id == old(nextRequest) && nextRequest == id + 1 && requests == old(requests)[id := asked]
    {
      id := nextRequest;
      requests := requests[id := asked];
      nextRequest := nextRequest + 1;
    }

    method RequestChannel(c: nat, channels: map<nat, Batch>, reqsByIndex: array<int>)
      requires c in channels && channels[c].index < reqsByIndex.Length
      modifies this`nextRequest, this`requests, reqsByIndex
      ensures nextRequest == old(nextRequest) + 1
      ensures requests == old(requests)[old(nextRequest) := Asked(InChannel(c), channels[c].messages)]
      ensures reqsByIndex[..] == old(reqsByIndex[..])[channels[c].index := old(nextRequest)]
    {
      reqsByIndex[channels[c].index] := Request(Asked(InChannel(c), channels[c].messages));
    }

    /** One request for the common messages, one for each channel; the channel requests are kept by index. */
    method SendRequests(plain: seq<nat>, channels: map<nat, Batch>) returns (requestId: int, reqsByIndex: array<int>)
      requires Indexed(channels) && forall id | id in requests :: id < nextRequest
      modifies this`nextRequest, this`requests
      ensures fresh(reqsByIndex)
      ensures SentOut(plain, channels, old(nextRequest), nextRequest, requestId, reqsByIndex[..])
      ensures AskedFor(old(requests), requests, plain, channels, channels.Keys, requestId, reqsByIndex[..])
    {
      requestId := 0;
      if plain != [] {
        requestId := Request(Asked(Plain, plain));
      }
      reqsByIndex := new int[|channels|];
      SendingStarts(old(requests), requests, plain, channels, old(nextRequest), requestId, reqsByIndex[..]);
      ghost var done: set<nat> := {};
      var remaining := channels.Keys;
      while remaining != {}
        invariant remaining <= channels.Keys && done == channels.Keys - remaining
        invariant Sending(old(requests), requests, plain, channels, done, old(nextRequest), nextRequest, requestId,
                          reqsByIndex[..])
        decreases remaining
      {
        ghost var some := Member(remaining);
        var c :| c in remaining;
        SendingNext(old(requests), requests, plain, channels, done, old(nextRequest), nextRequest, requestId,
                    reqsByIndex[..], c);
        RequestChannel(c, channels, reqsByIndex);
        done, remaining := done + {c}, remaining - {c};
      }
      assert done == channels.Keys;
      SendingEnds(old(requests), requests, plain, channels, old(nextRequest), nextRequest, requestId, reqsByIndex[..]);
    }

    /** The temporary ids make place for the real ones. */
    method ReplaceMarks(requestId: int, reqsByIndex: array<int>)
      requires forall p | p in webPagesPending && webPagesPending[p] < -1 ::
                 -webPagesPending[p] - 2 < reqsByIndex.Length
      modifies this`webPagesPending
      ensures webPagesPending == FinalAll(old(webPagesPending), requestId, reqsByIndex[..])
    {
      var remaining := webPagesPending.Keys;
      while remaining != {}
        invariant remaining <= webPagesPending.Keys == old(webPagesPending.Keys)
        invariant forall p | p in webPagesPending ::
                    webPagesPending[p] == (if p in remaining then old(webPagesPending)[p]
                                           else Final(old(webPagesPending)[p], requestId, reqsByIndex[..]))
        decreases remaining
      {
        ghost var some := Member(remaining);
        var p :| p in remaining;
        if webPagesPending[p] < 0 {
          if webPagesPending[p] == -1 {
            webPagesPending := webPagesPending[p := requestId];
          } else {
            webPagesPending := webPagesPending[p := reqsByIndex[-webPagesPending[p] - 2]];
          }
        }
        remaining := remaining - {p};
      }
    }

    method AskForPages(v: View) returns (ghost ids: map<Scope, int>, ghost t: State, wait: int)
      requires Valid() && Known(v, webPagesPending)
      modifies this`webPagesPending, this`nextRequest, this`requests
      ensures Resolved(state, v, t, ids) && webPagesPending == t.pending && nextRequest == t.next
      ensures Records(requests, t.sent)
      ensures Earliest(v, old(webPagesPending), wait)
    {
      NonNegative(state);
      var plain, channels;
      plain, channels, wait := CollectPages(v);
      MarksInRange(v, state.pending, plain, channels);
      var requestId, reqsByIndex := SendRequests(plain, channels);
      if requestId != 0 || reqsByIndex.Length != 0 {
        ReplaceMarks(requestId, reqsByIndex);
      }
      ids, t := PassesResolve(state, v, plain, channels, nextRequest, requestId, reqsByIndex[..], webPagesPending);
      AskedIsSent(state, v, old(requests), requests, plain, channels, nextRequest, requestId, reqsByIndex[..], ids);
    }

    method ResolveWebPages(v: View) returns (ghost ids: map<Scope, int>)
      requires Valid() && Known(v, webPagesPending) && v.till == pendingTill
      modifies this`webPagesPending, this`webPagesTimer, this`nextRequest, this`requests, this`state
      ensures Valid() && Resolved(old(state), v, state, ids)
      ensures exists wait :: Earliest(v, old(webPagesPending), wait)
                          && webPagesTimer == TimerAfter(old(webPagesTimer), wait)
      ensures Woken(old(Timed(v.now)), Timed(v.now))
    {
      ghost var t;
      var wait;
      ids, t, wait := AskForPages(v);
      ResolvedKeeps(state, v, t, ids);
      state := t;
      if wait < INT_MAX {
        webPagesTimer := Some((if wait < DAY then wait else DAY) * 1000);
      }
      ResolvedWakes(old(Timed(v.now)), Timed(v.now), v, old(state), state, ids, wait);
    }

    /** The timer fires: it is not set any more when the pass begins. */
    method OnTimer(v: View) returns (ghost ids: map<Scope, int>)
      requires Valid() && Known(v, webPagesPending) && v.till == pendingTill && webPagesTimer.Some?
      modifies this`webPagesPending, this`webPagesTimer, this`nextRequest, this`requests, this`state
      ensures Valid() && Resolved(old(state), v, state, ids)
      ensures Woken(old(Timed(v.now)).(timer := None), Timed(v.now))
    {
      webPagesTimer := None;
      ids := ResolveWebPages(v);
    }

    method RequestWebPageDelayed(p: nat, now: int)
      requires Valid() && p in pendingTill
      modifies this`webPagesPending, this`webPagesTimer, this`state
      ensures Valid() && state == if p in failed || pendingTill[p] == 0 then old(state) else Delay(old(state), p)
      ensures webPagesTimer == if p in failed || pendingTill[p] == 0 then old(webPagesTimer)
                               else TimerFor(old(webPagesTimer), pendingTill[p] - now)
      ensures Timed(now) == AskLater(old(Timed(now)), p, p in failed)
    {
      if p in failed || pendingTill[p] == 0 {
        return;
      }
      if p !in webPagesPending {
        webPagesPending := webPagesPending[p := 0];
      }
      state := Delay(state, p);
      var left := (pendingTill[p] - now) * 1000;
      if webPagesTimer == None || left <= webPagesTimer.value {
        webPagesTimer := Some((if left < 0 then 0 else left) + 1);
      }
    }

    method ClearWebPageRequest(p: nat)
      requires Valid()
      modifies this`webPagesPending, this`webPagesTimer, this`state
      ensures Valid() && state == Clear(old(state), p)
      ensures forall now :: Timed(now) == Dropped(old(Timed(now)), p)
      ensures webPagesTimer == if webPagesPending == map[] then None else old(webPagesTimer)
    {
      webPagesPending := webPagesPending - {p};
      state := Clear(state, p);
      if webPagesPending == map[] && webPagesTimer.Some? {
        webPagesTimer := None;
      }
    }

    method ClearWebPageRequests()
      requires Valid()
      modifies this`webPagesPending, this`webPagesTimer, this`state
      ensures Valid() && state == ClearAll(old(state)) && webPagesTimer == None
      ensures forall now :: Timed(now) == AllDropped(old(Timed(now)))
    {
      webPagesPending, webPagesTimer := map[], None;
      state := ClearAll(state);
    }

    /** A reply: the pages it did not settle are given up, and none of its pages is pending any more. */
    method GotWebPages(id: int)
      requires Valid() && id in state.sent && id !in state.answered
      modifies this`webPagesPending, this`pendingTill, this`failed, this`state
      ensures Valid() && state == Got(old(state), id)
      ensures pendingTill == Zeroed(old(pendingTill), GivenUp(old(webPagesPending), old(pendingTill), id))
      ensures failed == old(failed) + GivenUp(old(webPagesPending), old(pendingTill), id)
      ensures forall now :: Timed(now) == Replied(old(Timed(now)), id)
    {
      DropPages(id);
      state := Got(state, id);
    }

    method DropPages(id: int)
      modifies this`webPagesPending, this`pendingTill, this`failed
      ensures webPagesPending == Left(old(webPagesPending), {}, id)
      ensures pendingTill == Zeroed(old(pendingTill), GivenUp(old(webPagesPending), old(pendingTill), id))
      ensures failed == old(failed) + GivenUp(old(webPagesPending), old(pendingTill), id)
    {
      ghost var was, till := webPagesPending, pendingTill;
      var remaining := webPagesPending.Keys;
      assert webPagesPending == Left(was, remaining, id);
      while remaining != {}
        invariant remaining <= was.Keys && webPagesPending == Left(was, remaining, id)
        invariant pendingTill == Zeroed(till, GivenUp(Done(was, remaining), till, id))
        invariant failed == old(failed) + GivenUp(Done(was, remaining), till, id)
        decreases remaining
      {
        ghost var some := Member(remaining);
        var p :| p in remaining;
        DropOne(was, till, remaining, id, p);
        if webPagesPending[p] == id {
          if p in pendingTill && pendingTill[p] > 0 {
            pendingTill := pendingTill[p := 0];
            failed := failed + {p};
          }
          webPagesPending := webPagesPending - {p};
        }
        remaining := remaining - {p};
      }
      assert Done(was, remaining) == was;
    }
  }
}
