/** The web-app shell's bridge to its iframe: a bounded queue of events tagged with the frame they were posted for. */
module ShellBridge {
  import opened Util

  const MAX_PENDING := 64

  /** A posted event. The serial number counts the posts, so that the history can speak of one of them. */
  datatype Event = Event(generation: nat, serial: nat, eventType: string, eventData: string)

  /** An event handed to the window of the frame of some generation. */
  datatype Delivery = Delivery(event: Event, frame: nat)

  /** The variables of the page, and what has become of every post so far. */
  datatype Shell = Shell(
    hasFrame: bool,
    hasWindow: bool,
    frameLoaded: bool,
    frameGeneration: nat,
    sameOrigin: bool,
    frameOrigin: string,
    reloadSupported: bool,
    reloadArmed: Option<nat>,
    pending: seq<Event>,
    posts: nat,
    delivered: seq<Delivery>,
    overflowed: set<nat>,
    replaced: set<nat>,
    blocked: set<nat>)

  const INITIAL := Shell(false, false, false, 0, false, "", false, None, [], 0, [], {}, {}, {})

  function Serials(events: seq<Event>): set<nat> {
    set e | e in events :: e.serial
  }

  function EventsOf(deliveries: seq<Delivery>): (events: seq<Event>)
    ensures |events| == |deliveries|
  {
    seq(|deliveries|, i requires 0 <= i < |deliveries| => deliveries[i].event)
  }

  /** No window, or a same-origin frame whose address has no origin: nothing can be posted to it. */
  predicate CanSend(s: Shell) {
    s.hasFrame && s.hasWindow && !(s.sameOrigin && s.frameOrigin == "")
  }

  // ---------- the steps ----------

  function Send(s: Shell, e: Event): Shell {
    if CanSend(s) && e.generation == s.frameGeneration
    then s.(delivered := s.delivered + [Delivery(e, s.frameGeneration)])
    else s.(blocked := s.blocked + {e.serial})
  }

  function SendAll(s: Shell, events: seq<Event>): Shell
    decreases |events|
  {
    if |events| == 0 then s else SendAll(Send(s, events[0]), events[1..])
  }

  /** How many events a queue has beyond its limit. */
  function Excess(queue: seq<Event>): (n: nat)
    ensures n <= |queue|
  {
    if |queue| > MAX_PENDING then |queue| - MAX_PENDING else 0
  }

  function Post(s: Shell, eventType: string, eventData: string): Shell {
    var e := Event(s.frameGeneration, s.posts, eventType, eventData);
    var t := s.(posts := s.posts + 1);
    if !s.hasFrame || !s.hasWindow || !s.frameLoaded then
      var queue := s.pending + [e];
      t.(pending := queue[Excess(queue)..], overflowed := s.overflowed + Serials(queue[..Excess(queue)]))
    else Send(t, e)
  }

  function Create(s: Shell): Shell {
    s.(hasFrame := true, hasWindow := true, frameLoaded := false, frameGeneration := s.frameGeneration + 1,
       reloadSupported := false, reloadArmed := None, pending := [], replaced := s.replaced + Serials(s.pending))
  }

  /** The load event of the frame of some generation. */
  function Load(s: Shell, generation: nat): Shell {
    if !s.hasFrame || generation != s.frameGeneration then s
    else SendAll(s.(frameLoaded := true, pending := []), s.pending)
  }

  function Bootstrap(s: Shell, sameOrigin: bool, origin: string): Shell {
    Create(s.(sameOrigin := sameOrigin, frameOrigin := if sameOrigin then origin else ""))
  }

  /** A frame that can reload itself is told to, and replaced if it does not answer in time; any other is replaced. */
  function Reload(s: Shell): Shell {
    if !s.hasFrame then s
    else if s.reloadSupported && s.frameLoaded && s.hasWindow then
      Post(s, "reload_iframe", "{}").(reloadArmed := Some(s.frameGeneration))
    else Create(s)
  }

  function ReloadTimer(s: Shell): Shell {
    if s.reloadArmed == None then s else Create(s)
  }

  datatype Message = IframeReady(reloadSupported: bool) | IframeWillReload | Other

  /** A message whose source is the window of the frame of some generation, from some origin. */
  function Receive(s: Shell, generation: nat, origin: string, m: Message): Shell {
    if !s.hasFrame || !s.hasWindow || generation != s.frameGeneration then s
    else if s.sameOrigin && (s.frameOrigin == "" || origin != s.frameOrigin) then s
    else
      match m
      case IframeReady(supported) => s.(reloadSupported := supported)
      case IframeWillReload => s.(reloadArmed := None, frameLoaded := false)
      case Other => s
  }

  /** What can happen to the page; with WindowLost the browser takes the window of the frame away. */
  datatype Action =
    | DoPost(eventType: string, eventData: string)
    | DoLoad(generation: nat)
    | DoBootstrap(sameOrigin: bool, origin: string)
    | DoReload
    | DoReloadTimer
    | DoReceive(generation: nat, origin: string, message: Message)
    | WindowLost

  function Step(s: Shell, a: Action): Shell {
    match a
    case DoPost(t, d) => Post(s, t, d)
    case DoLoad(g) => Load(s, g)
    case DoBootstrap(same, origin) => Bootstrap(s, same, origin)
    case DoReload => Reload(s)
    case DoReloadTimer => ReloadTimer(s)
    case DoReceive(g, origin, m) => Receive(s, g, origin, m)
    case WindowLost => s.(hasWindow := false)
  }

  function Run(s: Shell, actions: seq<Action>): Shell {
    if |actions| == 0 then s else Step(Run(s, actions[..|actions| - 1]), Last(actions))
  }

  // ---------- what every reachable state satisfies ----------

  /** The events delivered so far, followed by the waiting ones. */
  ghost function Track(s: Shell): seq<Event> {
    EventsOf(s.delivered) + s.pending
  }

  ghost predicate Ascending(events: seq<Event>) {
    forall i, j | 0 <= i < j < |events| :: events[i].serial < events[j].serial
  }

  /**
   * Each post so far has exactly one fate: it is on the track (delivered or waiting), was pushed out of a full
   * queue, was dropped with the frame it was meant for, or could not be sent; and the track is in posting order.
   */
  ghost predicate Accounts(track: seq<Event>, posts: nat, overflowed: set<nat>, replaced: set<nat>, blocked: set<nat>) {
    && Ascending(track)
    && (forall n: nat ::
          n < posts <==> n in Serials(track) || n in overflowed || n in replaced || n in blocked)
    && Serials(track) !! overflowed && Serials(track) !! replaced && Serials(track) !! blocked
    && overflowed !! replaced && overflowed !! blocked && replaced !! blocked
  }

  ghost predicate Accounted(s: Shell) {
    Accounts(Track(s), s.posts, s.overflowed, s.replaced, s.blocked)
  }

  /** No event reaches a frame it was not posted for, and only events for the current frame wait. */
  ghost predicate RightFrames(s: Shell) {
    && (forall i | 0 <= i < |s.delivered| :: s.delivered[i].frame == s.delivered[i].event.generation)
    && (forall i | 0 <= i < |s.pending| :: s.pending[i].generation == s.frameGeneration)
  }

  ghost predicate Invariant(s: Shell) {
    && Accounted(s)
    && RightFrames(s)
    && |s.pending| <= MAX_PENDING
    && (s.hasWindow && s.frameLoaded ==> s.pending == [])
    && (s.reloadArmed.Some? ==> s.hasFrame && s.reloadArmed.value == s.frameGeneration)
    && (s.hasWindow || s.frameLoaded ==> s.hasFrame)
    && (s.reloadSupported ==> !(s.sameOrigin && s.frameOrigin == ""))
  }

  lemma SerialsOfSum(a: seq<Event>, b: seq<Event>)
    ensures Serials(a + b) == Serials(a) + Serials(b)
  {
    assert forall e :: e in a + b <==> e in a || e in b;
  }

  /** Taking a stretch out of an ascending track leaves the rest ascending and disjoint from it. */
  lemma TakeOut(a: seq<Event>, x: seq<Event>, b: seq<Event>)
    requires Ascending(a + x + b)
    ensures Ascending(a + b) && Serials(a + x + b) == Serials(a + b) + Serials(x) && Serials(a + b) !! Serials(x)
  {
    var all := a + x + b;
    SerialsOfSum(a + x, b);
    SerialsOfSum(a, x);
    SerialsOfSum(a, b);
    forall i, j | 0 <= i < j < |a + b|
      ensures (a + b)[i].serial < (a + b)[j].serial
    {
      var i', j' := if i < |a| then i else i + |x|, if j < |a| then j else j + |x|;
      assert (a + b)[i] == all[i'] && (a + b)[j] == all[j'];
    }
    forall i, j | 0 <= i < |a + b| && 0 <= j < |x|
      ensures (a + b)[i].serial != x[j].serial
    {
      var i' := if i < |a| then i else i + |x|;
      assert (a + b)[i] == all[i'] && x[j] == all[|a| + j];
    }
  }

  lemma Overflow(a: seq<Event>, x: seq<Event>, b: seq<Event>, posts: nat, o: set<nat>, r: set<nat>, k: set<nat>)
    requires Accounts(a + x + b, posts, o, r, k)
    ensures Accounts(a + b, posts, o + Serials(x), r, k)
    ensures Accounts(a + b, posts, o, r + Serials(x), k)
    ensures Accounts(a + b, posts, o, r, k + Serials(x))
  {
    TakeOut(a, x, b);
  }

  lemma EventsOfAppend(ds: seq<Delivery>, d: Delivery)
    ensures EventsOf(ds + [d]) == EventsOf(ds) + [d.event]
  {
  }

  /** Sending the first waiting event keeps the accounts right, whether it arrives or cannot be sent. */
  lemma SendFirst(s: Shell, e: Event, rest: seq<Event>)
    requires Accounted(s.(pending := [e] + rest)) && RightFrames(s.(pending := [e] + rest))
    ensures Accounted(Send(s.(pending := rest), e)) && RightFrames(Send(s.(pending := rest), e))
  {
    var before := s.(pending := [e] + rest);
    assert before.pending[0] == e;
    assert forall i | 0 <= i < |rest| :: rest[i] == before.pending[i + 1];
    var d := EventsOf(s.delivered);
    Assoc(d, [e], rest);
    EventsOfAppend(s.delivered, Delivery(e, s.frameGeneration));
    Overflow(d, [e], rest, s.posts, s.overflowed, s.replaced, s.blocked);
    assert Serials([e]) == {e.serial};
  }

  lemma {:induction false} SendAllKeeps(s: Shell, events: seq<Event>)
    requires s.pending == []
    requires Accounted(s.(pending := events)) && RightFrames(s.(pending := events))
    ensures Accounted(SendAll(s, events)) && RightFrames(SendAll(s, events))
    decreases |events|
  {
    if |events| == 0 {
      assert s.(pending := events) == s;
    } else {
      assert events == [events[0]] + events[1..];
      SendFirst(s, events[0], events[1..]);
      assert Send(s.(pending := events[1..]), events[0]) == Send(s, events[0]).(pending := events[1..]);
      SendAllKeeps(Send(s, events[0]), events[1..]);
    }
  }

  lemma {:induction false} SendAllFrame(s: Shell, events: seq<Event>)
    ensures var t := SendAll(s, events);
            && t.hasFrame == s.hasFrame && t.hasWindow == s.hasWindow && t.frameLoaded == s.frameLoaded
            && t.frameGeneration == s.frameGeneration && t.reloadArmed == s.reloadArmed && t.pending == s.pending
            && t.reloadSupported == s.reloadSupported && t.sameOrigin == s.sameOrigin && t.frameOrigin == s.frameOrigin
    decreases |events|
  {
    if |events| > 0 {
      SendAllFrame(Send(s, events[0]), events[1..]);
    }
  }

  lemma Posted(s: Shell, e: Event)
    requires Accounted(s) && e.serial == s.posts
    ensures Accounts(Track(s) + [e], s.posts + 1, s.overflowed, s.replaced, s.blocked)
  {
    SerialsOfSum(Track(s), [e]);
    assert Serials([e]) == {e.serial};
    forall i | 0 <= i < |Track(s)|
      ensures Track(s)[i].serial < s.posts
    {
      assert Track(s)[i].serial in Serials(Track(s));
    }
  }

  lemma QueueKeeps(d: seq<Event>, pending: seq<Event>, e: Event, posts: nat, o: set<nat>, r: set<nat>, k: set<nat>)
    requires Accounts(d + pending + [e], posts, o, r, k)
    ensures var queue := pending + [e];
            Accounts(d + queue[Excess(queue)..], posts, o + Serials(queue[..Excess(queue)]), r, k)
  {
    var queue := pending + [e];
    var extra := Excess(queue);
    Assoc(d, pending, [e]);
    assert queue == queue[..extra] + queue[extra..];
    Assoc(d, queue[..extra], queue[extra..]);
    Overflow(d, queue[..extra], queue[extra..], posts, o, r, k);
  }

  lemma PostKeeps(s: Shell, eventType: string, eventData: string)
    requires Invariant(s)
    ensures Invariant(Post(s, eventType, eventData))
  {
    var e := Event(s.frameGeneration, s.posts, eventType, eventData);
    Posted(s, e);
    if !s.hasFrame || !s.hasWindow || !s.frameLoaded {
      QueueKeeps(EventsOf(s.delivered), s.pending, e, s.posts + 1, s.overflowed, s.replaced, s.blocked);
    } else {
      DirectKeeps(s.(posts := s.posts + 1), e);
    }
  }

  lemma DirectKeeps(t: Shell, e: Event)
    requires t.pending == [] && RightFrames(t) && e.generation == t.frameGeneration
    requires Accounts(Track(t) + [e], t.posts, t.overflowed, t.replaced, t.blocked)
    ensures Accounted(Send(t, e)) && RightFrames(Send(t, e))
  {
    assert t.(pending := []) == t;
    assert Track(t.(pending := [e] + [])) == Track(t) + [e];
    SendFirst(t, e, []);
  }

  lemma CreateKeeps(s: Shell)
    requires Accounted(s) && RightFrames(s)
    ensures Invariant(Create(s))
  {
    var d := EventsOf(s.delivered);
    Overflow(d, s.pending, [], s.posts, s.overflowed, s.replaced, s.blocked);
    assert d + s.pending + [] == d + s.pending;
  }

  lemma LoadKeeps(s: Shell, generation: nat)
    requires Invariant(s)
    ensures Invariant(Load(s, generation))
  {
    if s.hasFrame && generation == s.frameGeneration {
      var t := s.(frameLoaded := true, pending := []);
      SendAllKeeps(t, s.pending);
      SendAllFrame(t, s.pending);
    }
  }

  /** A new origin rule, a change of the reload flags or the loss of the window leave the events alone. */
  lemma SameEvents(s: Shell, t: Shell)
    requires Accounted(s) && RightFrames(s)
    requires t.pending == s.pending && t.delivered == s.delivered && t.frameGeneration == s.frameGeneration
    requires t.posts == s.posts && t.overflowed == s.overflowed && t.replaced == s.replaced && t.blocked == s.blocked
    ensures Accounted(t) && RightFrames(t)
  {
  }

  lemma BootstrapKeeps(s: Shell, sameOrigin: bool, origin: string)
    requires Invariant(s)
    ensures Invariant(Bootstrap(s, sameOrigin, origin))
  {
    var t := s.(sameOrigin := sameOrigin, frameOrigin := if sameOrigin then origin else "");
    SameEvents(s, t);
    CreateKeeps(t);
  }

  lemma ReloadKeeps(s: Shell)
    requires Invariant(s)
    ensures Invariant(Reload(s)) && Invariant(ReloadTimer(s))
  {
    var t := Post(s, "reload_iframe", "{}");
    PostKeeps(s, "reload_iframe", "{}");
    SameEvents(t, t.(reloadArmed := Some(s.frameGeneration)));
    CreateKeeps(s);
  }

  lemma ReceiveKeeps(s: Shell, generation: nat, origin: string, m: Message)
    requires Invariant(s)
    ensures Invariant(Receive(s, generation, origin, m)) && Invariant(s.(hasWindow := false))
  {
    SameEvents(s, Receive(s, generation, origin, m));
    SameEvents(s, s.(hasWindow := false));
  }

  lemma StepKeeps(s: Shell, a: Action)
    requires Invariant(s)
    ensures Invariant(Step(s, a))
  {
    match a
    case DoPost(t, d) => PostKeeps(s, t, d);
    case DoLoad(g) => LoadKeeps(s, g);
    case DoBootstrap(same, origin) => BootstrapKeeps(s, same, origin);
    case DoReload => ReloadKeeps(s);
    case DoReloadTimer => ReloadKeeps(s);
    case DoReceive(g, origin, m) => ReceiveKeeps(s, g, origin, m);
    case WindowLost => ReceiveKeeps(s, 0, "", Other);
  }

  /** Every reachable state satisfies the invariant. */
  lemma {:induction false} Reachable(actions: seq<Action>)
    ensures Invariant(Run(INITIAL, actions))
    decreases |actions|
  {
    if |actions| == 0 {
      assert Track(INITIAL) == [];
    } else {
      Reachable(actions[..|actions| - 1]);
      StepKeeps(Run(INITIAL, actions[..|actions| - 1]), Last(actions));
    }
  }

  /** What that means for a user of the bridge, after any sequence of actions. */
  lemma NothingMisdelivered(actions: seq<Action>)
    ensures var s := Run(INITIAL, actions);
            && (s.hasFrame && s.hasWindow && s.frameLoaded ==> s.pending == [])
            && (forall e | e in s.pending :: e.generation == s.frameGeneration)
            && (forall d | d in s.delivered :: d.frame == d.event.generation)
            && (forall i, j | 0 <= i < j < |s.delivered| ::
                  s.delivered[i].event.serial < s.delivered[j].event.serial)
  {
    Reachable(actions);
    var s := Run(INITIAL, actions);
    forall i, j | 0 <= i < j < |s.delivered|
      ensures s.delivered[i].event.serial < s.delivered[j].event.serial
    {
      assert Track(s)[i] == s.delivered[i].event && Track(s)[j] == s.delivered[j].event;
    }
  }

  /** A queued post loses nothing while fewer than 64 wait; after that it pushes out the oldest. */
  lemma OnlyTheOldestIsPushedOut(s: Shell, eventType: string, eventData: string)
    requires |s.pending| <= MAX_PENDING && !(s.hasFrame && s.hasWindow && s.frameLoaded)
    ensures var e := Event(s.frameGeneration, s.posts, eventType, eventData);
            var t := Post(s, eventType, eventData);
            if |s.pending| < MAX_PENDING
            then t.pending == s.pending + [e] && t.overflowed == s.overflowed
            else t.pending == s.pending[1..] + [e] && t.overflowed == s.overflowed + {s.pending[0].serial}
  {
    var queue := s.pending + [Event(s.frameGeneration, s.posts, eventType, eventData)];
    if |s.pending| == MAX_PENDING {
      assert queue[..1] == [s.pending[0]];
      assert Serials([s.pending[0]]) == {s.pending[0].serial};
    } else {
      assert queue[..0] == [];
    }
  }

  /** When the current frame loads, everything that waited for it arrives, in order. */
  lemma LoadDeliversAll(s: Shell)
    requires Invariant(s) && CanSend(s)
    ensures var t := Load(s, s.frameGeneration);
            && t.pending == [] && t.frameLoaded
            && t.delivered == s.delivered + seq(|s.pending|, i requires 0 <= i < |s.pending| =>
                                                Delivery(s.pending[i], s.frameGeneration))
  {
    SendAllDelivers(s.(frameLoaded := true, pending := []), s.pending);
    SendAllFrame(s.(frameLoaded := true, pending := []), s.pending);
  }

  lemma {:induction false} SendAllDelivers(s: Shell, events: seq<Event>)
    requires CanSend(s) && forall i | 0 <= i < |events| :: events[i].generation == s.frameGeneration
    ensures SendAll(s, events).delivered
         == s.delivered + seq(|events|, i requires 0 <= i < |events| => Delivery(events[i], s.frameGeneration))
    decreases |events|
  {
    var all := seq(|events|, i requires 0 <= i < |events| => Delivery(events[i], s.frameGeneration));
    if |events| > 0 {
      var rest := events[1..];
      SendAllDelivers(Send(s, events[0]), rest);
      var more := seq(|rest|, i requires 0 <= i < |rest| => Delivery(rest[i], s.frameGeneration));
      assert all == [Delivery(events[0], s.frameGeneration)] + more;
    } else {
      assert s.delivered + all == s.delivered;
    }
  }

  /** A new frame has nothing waiting, is not loaded and cannot reload itself yet: what is posted waits for its load. */
  lemma NewFrameWaits(s: Shell, eventType: string, eventData: string)
    ensures var t := Create(s);
            && t.hasFrame && t.hasWindow && !t.frameLoaded && !t.reloadSupported && t.reloadArmed == None
            && t.frameGeneration == s.frameGeneration + 1 && t.pending == [] && t.delivered == s.delivered
            && t.sameOrigin == s.sameOrigin && t.frameOrigin == s.frameOrigin
            && Post(t, eventType, eventData).pending == [Event(t.frameGeneration, s.posts, eventType, eventData)]
            && Post(t, eventType, eventData).delivered == s.delivered
  {
    var queue := [] + [Event(s.frameGeneration + 1, s.posts, eventType, eventData)];
    assert queue[0..] == queue;
  }

  /** A page begins with a new frame under its origin rule; a lost window takes nothing. */
  lemma BootstrapBegins(s: Shell, sameOrigin: bool, origin: string)
    ensures var t := Bootstrap(s, sameOrigin, origin);
            && t.frameGeneration == s.frameGeneration + 1 && !t.frameLoaded && t.sameOrigin == sameOrigin
            && (CanSend(t) <==> !sameOrigin || origin != "") && t.frameOrigin == (if sameOrigin then origin else "")
    ensures !CanSend(Step(s, WindowLost))
  {
  }

  /**
   * A loaded frame that can reload itself is told to, and stays; the timer then armed replaces it. Any other frame is
   * replaced at once, and without a frame or an armed timer nothing happens.
   */
  lemma ReloadReplaces(s: Shell)
    requires Invariant(s)
    ensures var t := Reload(s);
            && (!s.hasFrame ==> t == s)
            && (s.hasFrame && s.reloadSupported && s.frameLoaded && s.hasWindow ==>
                  && t.frameGeneration == s.frameGeneration && t.reloadArmed == Some(s.frameGeneration)
                  && t.delivered == s.delivered + [Delivery(Event(s.frameGeneration, s.posts, "reload_iframe", "{}"),
                                                            s.frameGeneration)]
                  && ReloadTimer(t).frameGeneration == s.frameGeneration + 1 && !ReloadTimer(t).frameLoaded)
            && (s.hasFrame && !(s.reloadSupported && s.frameLoaded && s.hasWindow) ==>
                  t.frameGeneration == s.frameGeneration + 1 && !t.frameLoaded && t.delivered == s.delivered)
    ensures s.reloadArmed == None ==> ReloadTimer(s) == s
  {
  }

  /**
   * The messages that count are those of the window of the current frame, and for a same-origin frame those from its
   * own origin, if it has one.
   */
  lemma ReceivesIff(s: Shell, generation: nat, origin: string, supported: bool)
    ensures var ready, leaving := Receive(s, generation, origin, IframeReady(supported)),
                                  Receive(s, generation, origin, IframeWillReload);
            if s.hasFrame && s.hasWindow && generation == s.frameGeneration
               && (s.sameOrigin ==> s.frameOrigin != "" && origin == s.frameOrigin)
            then ready == s.(reloadSupported := supported) && leaving == s.(reloadArmed := None, frameLoaded := false)
            else ready == leaving == s
    ensures Receive(s, generation, origin, Other) == s
  {
  }

  // ---------- which events are refused ----------

  /** The posts that a step refuses: those it sends, or flushes, to a frame that cannot take them. */
  function Refused(s: Shell, a: Action): set<nat> {
    if !s.hasFrame || CanSend(s) then {}
    else
      match a
      case DoPost(_, _) => if s.hasWindow && s.frameLoaded then {s.posts} else {}
      case DoLoad(g) => if g == s.frameGeneration then Serials(s.pending) else {}
      case _ => {}
  }

  /** The frame has no window, or is of the same origin without having one, and the step would send it something. */
  predicate Refuses(s: Shell, a: Action) {
    && s.hasFrame && !CanSend(s)
    && ((a.DoPost? && s.hasWindow && s.frameLoaded) || (a == DoLoad(s.frameGeneration) && s.pending != []))
  }

  lemma {:induction false} SendAllRefuses(s: Shell, events: seq<Event>)
    requires forall i | 0 <= i < |events| :: events[i].generation == s.frameGeneration
    ensures SendAll(s, events).blocked == s.blocked + if CanSend(s) then {} else Serials(events)
    decreases |events|
  {
    if |events| > 0 {
      var t := Send(s, events[0]);
      SendAllRefuses(t, events[1..]);
      assert events == [events[0]] + events[1..];
      SerialsOfSum([events[0]], events[1..]);
      assert Serials([events[0]]) == {events[0].serial};
    }
  }

  lemma LoadRefuses(s: Shell, generation: nat)
    requires RightFrames(s)
    ensures Load(s, generation).blocked == s.blocked + Refused(s, DoLoad(generation))
  {
    if s.hasFrame && generation == s.frameGeneration {
      SendAllRefuses(s.(frameLoaded := true, pending := []), s.pending);
    }
  }

  lemma PostRefuses(s: Shell, eventType: string, eventData: string)
    ensures Post(s, eventType, eventData).blocked == s.blocked + Refused(s, DoPost(eventType, eventData))
  {
  }

  lemma RefusedIff(s: Shell, a: Action)
    ensures Refused(s, a) != {} <==> Refuses(s, a)
  {
    if s.pending != [] {
      assert s.pending[0] in s.pending && s.pending[0].serial in Serials(s.pending);
    }
  }

  /** What waits was not refused, and neither was what is not posted yet. */
  lemma RefusedIsNew(s: Shell, a: Action)
    requires Accounted(s)
    ensures s.blocked !! Refused(s, a)
  {
    SerialsOfSum(EventsOf(s.delivered), s.pending);
  }

  /** A step refuses exactly these posts, and none of them was refused before. */
  lemma RefusesExactly(s: Shell, a: Action)
    requires Invariant(s)
    ensures Step(s, a).blocked == s.blocked + Refused(s, a) && s.blocked !! Refused(s, a)
    ensures Refused(s, a) != {} <==> Refuses(s, a)
  {
    RefusedIsNew(s, a);
    RefusedIff(s, a);
    match a
    case DoPost(t, d) => PostRefuses(s, t, d);
    case DoLoad(g) => LoadRefuses(s, g);
    case DoReload => PostRefuses(s, "reload_iframe", "{}");
    case _ =>
  }

  /** An event is lost to a frame that cannot take it in exactly these steps. */
  lemma BlockedIff(s: Shell, a: Action)
    requires Invariant(s)
    ensures Step(s, a).blocked != s.blocked <==> Refuses(s, a)
  {
    RefusesExactly(s, a);
  }

  ghost predicate NeverRefuses(actions: seq<Action>) {
    forall i | 0 <= i < |actions| :: !Refuses(Run(INITIAL, actions[..i]), actions[i])
  }

  lemma NeverRefusesNext(before: seq<Action>, a: Action)
    ensures NeverRefuses(before + [a]) <==> NeverRefuses(before) && !Refuses(Run(INITIAL, before), a)
  {
    var actions := before + [a];
    assert actions[..|before|] == before && actions[|before|] == a;
    assert forall i | 0 <= i < |before| :: actions[..i] == before[..i] && actions[i] == before[i];
  }

  lemma StepBlocksNothingIff(s: Shell, a: Action)
    requires Invariant(s)
    ensures Step(s, a).blocked == {} <==> s.blocked == {} && !Refuses(s, a)
  {
    RefusesExactly(s, a);
  }

  /** The queue limit and the replacement of frames are the only losses of a run exactly if no step of it refuses. */
  lemma {:induction false} NothingBlockedIff(actions: seq<Action>)
    ensures Run(INITIAL, actions).blocked == {} <==> NeverRefuses(actions)
    decreases |actions|
  {
    if |actions| > 0 {
      var before := actions[..|actions| - 1];
      assert actions == before + [Last(actions)];
      NothingBlockedIff(before);
      Reachable(before);
      NeverRefusesNext(before, Last(actions));
      StepBlocksNothingIff(Run(INITIAL, before), Last(actions));
    }
  }

  /** Actions under which every frame has a window and, when it needs one, an origin. */
  predicate Sendable(a: Action) {
    match a
    case DoBootstrap(same, origin) => same ==> origin != ""
    case WindowLost => false
    case _ => true
  }

  lemma SendableStep(s: Shell, a: Action)
    requires (s.hasFrame ==> CanSend(s)) && (s.reloadArmed.Some? ==> s.hasFrame) && Sendable(a)
    ensures Step(s, a).hasFrame ==> CanSend(Step(s, a))
  {
    if a.DoLoad? {
      SendAllFrame(s.(frameLoaded := true, pending := []), s.pending);
    }
  }

  /** With such actions only, no step refuses anything. */
  lemma {:induction false} NothingBlocked(actions: seq<Action>)
    requires forall i | 0 <= i < |actions| :: Sendable(actions[i])
    ensures Run(INITIAL, actions).blocked == {}
    ensures Run(INITIAL, actions).hasFrame ==> CanSend(Run(INITIAL, actions))
    decreases |actions|
  {
    if |actions| > 0 {
      var before := actions[..|actions| - 1];
      NothingBlocked(before);
      Reachable(before);
      StepBlocksNothingIff(Run(INITIAL, before), Last(actions));
      SendableStep(Run(INITIAL, before), Last(actions));
    }
  }

  /** Without an origin a loaded same-origin frame never gets its events: they are dropped without a trace. */
  lemma OriginlessFrameLosesEvents(eventType: string, eventData: string)
    ensures var s := Post(Load(Bootstrap(INITIAL, true, ""), 1), eventType, eventData);
            s.delivered == [] && s.pending == [] && s.blocked == {0}
  {
    var s1 := Bootstrap(INITIAL, true, "");
    var s2 := Load(s1, 1);
    assert s2 == s1.(frameLoaded := true, pending := []);
  }

  // ---------- the page ----------

  /** The variables of the page; the ghost fields record the history of the posts. */
  class Page {
    var hasFrame: bool
    var hasWindow: bool
    var frameLoaded: bool
    var frameGeneration: nat
    var sameOrigin: bool
    var frameOrigin: string
    var reloadSupported: bool
    var reloadTimeout: Option<nat>
    var pendingEvents: seq<Event>
    var posts: nat
    ghost var delivered: seq<Delivery>
    ghost var overflowed: set<nat>
    ghost var replaced: set<nat>
    ghost var blocked: set<nat>

    ghost function Value(): Shell
      reads this
    {
      Shell(hasFrame, hasWindow, frameLoaded, frameGeneration, sameOrigin, frameOrigin, reloadSupported,
            reloadTimeout, pendingEvents, posts, delivered, overflowed, replaced, blocked)
    }

    constructor ()
      ensures Value() == INITIAL
    {
      hasFrame, hasWindow, frameLoaded, frameGeneration := false, false, false, 0;
      sameOrigin, frameOrigin, reloadSupported, reloadTimeout := false, "", false, None;
      pendingEvents, posts := [], 0;
      delivered, overflowed, replaced, blocked := [], {}, {}, {};
    }

    method SendToFrame(e: Event)
      modifies this
      ensures Value() == Send(old(Value()), e)
    {
      if !hasFrame || !hasWindow || e.generation != frameGeneration {
        blocked := blocked + {e.serial};
        return;
      }
      if sameOrigin && frameOrigin == "" {
        blocked := blocked + {e.serial};
        return;
      }
      delivered := delivered + [Delivery(e, frameGeneration)];
    }

    method PushPending(e: Event)
      modifies this`pendingEvents, this`overflowed
      ensures var queue := old(pendingEvents) + [e];
              && pendingEvents == queue[Excess(queue)..]
              && overflowed == old(overflowed) + Serials(queue[..Excess(queue)])
    {
      pendingEvents := pendingEvents + [e];
      ghost var queue := pendingEvents;
      ghost var shifted := 0;
      assert Serials(queue[..0]) == {};
      while |pendingEvents| > MAX_PENDING
        invariant shifted <= Excess(queue) && pendingEvents == queue[shifted..]
        invariant overflowed == old(overflowed) + Serials(queue[..shifted])
      {
        assert queue[..shifted + 1] == queue[..shifted] + [pendingEvents[0]];
        SerialsOfSum(queue[..shifted], [pendingEvents[0]]);
        assert Serials([pendingEvents[0]]) == {pendingEvents[0].serial};
        overflowed := overflowed + {pendingEvents[0].serial};
        pendingEvents := pendingEvents[1..];
        shifted := shifted + 1;
      }
    }

    method PostToFrame(eventType: string, eventData: string)
      modifies this
      ensures Value() == Post(old(Value()), eventType, eventData)
    {
      var e := Event(frameGeneration, posts, eventType, eventData);
      posts := posts + 1;
      if !hasFrame || !hasWindow || !frameLoaded {
        PushPending(e);
        return;
      }
      SendToFrame(e);
    }

    method FlushPendingEvents()
      modifies this
      ensures Value() == SendAll(old(Value()).(pending := []), old(pendingEvents))
    {
      var pending := pendingEvents;
      pendingEvents := [];
      for i := 0 to |pending|
        invariant frameGeneration == old(frameGeneration)
        invariant SendAll(Value(), pending[i..]) == SendAll(old(Value()).(pending := []), pending)
      {
        assert pending[i..][1..] == pending[i + 1..];
        if pending[i].generation == frameGeneration {
          SendToFrame(pending[i]);
        } else {
          blocked := blocked + {pending[i].serial};
        }
      }
    }

    /** What waits for a frame that is replaced is lost. */
    method DropPending()
      modifies this`pendingEvents, this`replaced
      ensures Value() == old(Value()).(pending := [], replaced := old(replaced) + Serials(old(pendingEvents)))
    {
      replaced := replaced + Serials(pendingEvents);
      pendingEvents := [];
    }

    method CreateIframe()
      modifies this
      ensures Value() == Create(old(Value()))
    {
      DropPending();
      reloadTimeout := None;
      frameGeneration := frameGeneration + 1;
      frameLoaded := false;
      reloadSupported := false;
      hasFrame, hasWindow := true, true;
    }

    method OnLoad(generation: nat)
      modifies this
      ensures Value() == Load(old(Value()), generation)
    {
      if !hasFrame || generation != frameGeneration {
        return;
      }
      frameLoaded := true;
      FlushPendingEvents();
    }

    method BootstrapPage(sameOrigin: bool, origin: string)
      modifies this
      ensures Value() == Bootstrap(old(Value()), sameOrigin, origin)
    {
      this.sameOrigin := sameOrigin;
      frameOrigin := if sameOrigin then origin else "";
      CreateIframe();
    }

    method ReloadFrame()
      modifies this
      ensures Value() == Reload(old(Value()))
    {
      if !hasFrame {
        return;
      }
      if reloadSupported && frameLoaded && hasWindow {
        var e := Event(frameGeneration, posts, "reload_iframe", "{}");
        posts := posts + 1;
        SendToFrame(e);
        reloadTimeout := Some(frameGeneration);
        return;
      }
      CreateIframe();
    }

    method OnReloadTimeout()
      modifies this
      ensures Value() == ReloadTimer(old(Value()))
    {
      if reloadTimeout == None {
        return;
      }
      reloadTimeout := None;
      CreateIframe();
    }

    method OnMessage(generation: nat, origin: string, m: Message)
      modifies this
      ensures Value() == Receive(old(Value()), generation, origin, m)
    {
      if !hasFrame || !hasWindow || generation != frameGeneration {
        return;
      }
      if sameOrigin && (frameOrigin == "" || origin != frameOrigin) {
        return;
      }
      match m
      case IframeReady(supported) => reloadSupported := supported;
      case IframeWillReload =>
        reloadTimeout := None;
        frameLoaded := false;
      case Other =>
    }
  }
}
