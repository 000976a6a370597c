/** Batched loading of messages by id: many callers, few requests, every callback run once. */
module MessageData {
  import opened Util

  /** Where a message id is looked up: the common table, or the table of one channel. */
  datatype Scope = Plain | InChannel(channel: nat)

  datatype Key = Key(scope: Scope, msg: int)

  /** A message being loaded; request id 0 means no request lists it yet. Callbacks are numbered as registered. */
  datatype Loading = Loading(requestId: nat, callbacks: seq<nat>)

  datatype Sent = Sent(scope: Scope, listed: set<Key>)

  /** A callback run because of the reply to a request. */
  datatype Ran = Ran(callback: nat, request: nat)

  /**
   * What is being loaded, and the history of the protocol: the message each callback was registered for, the
   * requests sent and replied to, and the callbacks run.
   */
  datatype State = State(
    table: map<Key, Loading>,
    resolveQueued: bool,
    nextRequest: nat,
    registered: seq<Key>,
    sent: map<nat, Sent>,
    replied: set<nat>,
    ran: seq<Ran>)

  const INITIAL := State(map[], false, 1, [], map[], {}, [])

  // ---------- the steps ----------

  function LoadingOf(s: State, k: Key): Loading {
    if k in s.table then s.table[k] else Loading(0, [])
  }

  /** A call for one message, with or without a callback. */
  function Ask(s: State, k: Key, done: bool): State {
    var was := LoadingOf(s, k);
    s.(table := s.table[k := if done then was.(callbacks := was.callbacks + [|s.registered|]) else was],
       registered := if done then s.registered + [k] else s.registered,
       resolveQueued := s.resolveQueued || was.requestId == 0)
  }

  function Unsent(s: State, scope: Scope): set<Key> {
    set k | k in s.table && k.scope == scope && s.table[k].requestId == 0
  }

  /** One request that lists every message of a table that no request lists. */
  function SendFor(s: State, scope: Scope): State {
    var listed := Unsent(s, scope);
    s.(table := map k | k in s.table :: if k in listed then s.table[k].(requestId := s.nextRequest) else s.table[k],
       sent := s.sent[s.nextRequest := Sent(scope, listed)],
       nextRequest := s.nextRequest + 1)
  }

  function SendEach(s: State, scopes: seq<Scope>): State {
    if |scopes| == 0 then s else SendFor(SendEach(s, scopes[..|scopes| - 1]), Last(scopes))
  }

  /** The queued resolving: the tables with something to send each send one request, in some order. */
  function Resolve(s: State, scopes: seq<Scope>): State {
    SendEach(s, scopes).(resolveQueued := false)
  }

  ghost predicate ToResolve(s: State, scopes: seq<Scope>) {
    Distinct(scopes) && forall scope :: scope in scopes <==> Unsent(s, scope) != {}
  }

  predicate InFlight(s: State, id: nat) {
    id in s.sent && id !in s.replied
  }

  /** The messages that the reply to a request concerns. */
  predicate AnsweredBy(s: State, id: nat, k: Key)
    requires id in s.sent
  {
    k in s.table && k.scope == s.sent[id].scope && s.table[k].requestId == id
  }

  function RunAll(callbacks: seq<nat>, id: nat): (ran: seq<Ran>)
    ensures |ran| == |callbacks|
  {
    seq(|callbacks|, i requires 0 <= i < |callbacks| => Ran(callbacks[i], id))
  }

  /** The callbacks of an earlier message come first, and those of one message as they were registered. */
  predicate Before(registered: seq<Key>, m: nat, n: nat) {
    && m < |registered| && n < |registered|
    && (registered[m].msg < registered[n].msg || (registered[m].msg == registered[n].msg && m < n))
  }

  ghost predicate Sorted(registered: seq<Key>, callbacks: seq<nat>) {
    forall i, j | 0 <= i < j < |callbacks| :: Before(registered, callbacks[i], callbacks[j])
  }

  /** A reply, result or error alike: its messages go, and their callbacks run in the given order. */
  function Reply(s: State, id: nat, callbacks: seq<nat>): State
    requires id in s.sent
  {
    s.(table := map k | k in s.table && !AnsweredBy(s, id, k) :: s.table[k],
       replied := s.replied + {id},
       ran := s.ran + RunAll(callbacks, id))
  }

  /** The callbacks are those of the messages the reply concerns, each listed once, in order. */
  ghost predicate ToRun(s: State, id: nat, callbacks: seq<nat>)
    requires id in s.sent
  {
    && Sorted(s.registered, callbacks)
    && (forall n: nat :: n in callbacks <==> exists k :: AnsweredBy(s, id, k) && WaitsAt(s, n, k))
  }

  ghost predicate Next(s: State, t: State) {
    || (exists k, done :: t == Ask(s, k, done))
    || (exists scopes :: ToResolve(s, scopes) && t == Resolve(s, scopes))
    || (exists id, callbacks :: InFlight(s, id) && ToRun(s, id, callbacks) && t == Reply(s, id, callbacks))
  }

  // ---------- what every reachable state satisfies ----------

  /** The requests in flight and the messages marked as requested describe each other. */
  ghost predicate FlightInvariant(s: State) {
    && s.nextRequest > 0
    && (forall id | id in s.sent :: 0 < id < s.nextRequest)
    && (forall id | id in s.replied :: id in s.sent)
    && (forall k | k in s.table && s.table[k].requestId != 0 ::
          InFlight(s, s.table[k].requestId) && k in s.sent[s.table[k].requestId].listed)
    && (forall id, k | InFlight(s, id) && k in s.sent[id].listed :: AnsweredBy(s, id, k))
    && (forall id, k | id in s.sent && k in s.sent[id].listed :: k.scope == s.sent[id].scope)
    && (forall k | k in s.table && s.table[k].requestId == 0 :: s.resolveQueued)
  }

  ghost predicate HasRun(s: State, n: nat) {
    exists i | 0 <= i < |s.ran| :: s.ran[i].callback == n
  }

  predicate WaitsAt(s: State, n: nat, k: Key) {
    k in s.table && n in s.table[k].callbacks
  }

  predicate RegisteredFor(s: State, n: nat, k: Key) {
    n < |s.registered| && s.registered[n] == k
  }

  ghost predicate Waits(s: State, n: nat) {
    n < |s.registered| && WaitsAt(s, n, s.registered[n])
  }

  ghost predicate Ascending(callbacks: seq<nat>) {
    forall i, j | 0 <= i < j < |callbacks| :: callbacks[i] < callbacks[j]
  }

  /** The waiting callbacks wait once, in the order of their registration, at the message they were registered for. */
  ghost predicate WaitingInvariant(s: State) {
    && (forall k | k in s.table :: Ascending(s.table[k].callbacks))
    && (forall k, n: nat | WaitsAt(s, n, k) :: RegisteredFor(s, n, k))
    && (forall n | 0 <= n < |s.registered| :: HasRun(s, n) <==> !Waits(s, n))
  }

  /** A callback ran at most once, after the reply to a request that listed its message. */
  ghost predicate RanInvariant(s: State) {
    && (forall i, j | 0 <= i < j < |s.ran| :: s.ran[i].callback != s.ran[j].callback)
    && (forall i | 0 <= i < |s.ran| ::
          && s.ran[i].callback < |s.registered|
          && s.ran[i].request in s.replied && s.ran[i].request in s.sent
          && s.registered[s.ran[i].callback] in s.sent[s.ran[i].request].listed)
  }

  ghost predicate Invariant(s: State) {
    FlightInvariant(s) && WaitingInvariant(s) && RanInvariant(s)
  }

  lemma AskKeepsFlight(s: State, k: Key, done: bool)
    requires FlightInvariant(s)
    ensures FlightInvariant(Ask(s, k, done))
  {
  }

  lemma AskKeepsWaiting(s: State, k: Key, done: bool)
    requires WaitingInvariant(s) && RanInvariant(s)
    ensures WaitingInvariant(Ask(s, k, done))
  {
    var t := Ask(s, k, done);
    var count := |s.registered|;
    var was, now := LoadingOf(s, k).callbacks, t.table[k].callbacks;
    assert t.table.Keys == s.table.Keys + {k};
    assert now == if done then was + [count] else was;
    forall i | 0 <= i < |was|
      ensures was[i] < count
    {
      assert WaitsAt(s, was[i], k) && RegisteredFor(s, was[i], k);
    }
    forall n: nat, k': Key | WaitsAt(t, n, k')
      ensures RegisteredFor(t, n, k')
    {
      assert WaitsAt(s, n, k') || n == count;
    }
    forall n: nat | n < |t.registered|
      ensures HasRun(t, n) <==> !Waits(t, n)
    {
      assert HasRun(t, n) <==> HasRun(s, n);
      if n < count {
        assert Waits(t, n) <==> Waits(s, n);
      }
    }
  }

  lemma AskKeeps(s: State, k: Key, done: bool)
    requires Invariant(s)
    ensures Invariant(Ask(s, k, done))
  {
    AskKeepsFlight(s, k, done);
    AskKeepsWaiting(s, k, done);
  }

  lemma SendForKeepsFlight(s: State, scope: Scope)
    requires FlightInvariant(s)
    ensures FlightInvariant(SendFor(s, scope))
  {
  }

  /** Sending changes neither which messages are loading nor what waits for them. */
  lemma SameWaiting(s: State, t: State)
    requires WaitingInvariant(s) && t.table.Keys == s.table.Keys && t.registered == s.registered && t.ran == s.ran
    requires forall k | k in s.table :: t.table[k].callbacks == s.table[k].callbacks
    ensures WaitingInvariant(t)
  {
    assert forall n :: HasRun(t, n) <==> HasRun(s, n);
    assert forall n: nat, k :: WaitsAt(t, n, k) <==> WaitsAt(s, n, k);
  }

  lemma SendForKeeps(s: State, scope: Scope)
    requires Invariant(s)
    ensures Invariant(SendFor(s, scope))
  {
    SendForKeepsFlight(s, scope);
    SameWaiting(s, SendFor(s, scope));
  }

  lemma {:induction false} SendEachKeeps(s: State, scopes: seq<Scope>)
    requires Invariant(s)
    ensures Invariant(SendEach(s, scopes))
  {
    if |scopes| > 0 {
      SendEachKeeps(s, scopes[..|scopes| - 1]);
      SendForKeeps(SendEach(s, scopes[..|scopes| - 1]), Last(scopes));
    }
  }

  lemma {:induction false} SendEachUnsent(s: State, scopes: seq<Scope>, k: Key)
    ensures k in SendEach(s, scopes).table <==> k in s.table
    ensures k in s.table && k.scope in scopes && s.nextRequest > 0 ==> SendEach(s, scopes).table[k].requestId != 0
    ensures k in s.table && k.scope !in scopes ==> SendEach(s, scopes).table[k] == s.table[k]
    ensures SendEach(s, scopes).nextRequest >= s.nextRequest
  {
    if |scopes| > 0 {
      SendEachUnsent(s, scopes[..|scopes| - 1], k);
    }
  }

  lemma ResolveKeeps(s: State, scopes: seq<Scope>)
    requires Invariant(s) && ToResolve(s, scopes)
    ensures Invariant(Resolve(s, scopes))
  {
    SendEachKeeps(s, scopes);
    var t := SendEach(s, scopes);
    forall k | k in t.table
      ensures t.table[k].requestId != 0
    {
      SendEachUnsent(s, scopes, k);
      assert k.scope !in scopes ==> k !in Unsent(s, k.scope);
    }
    SameWaiting(t, Resolve(s, scopes));
  }

  /** After the resolving nothing is queued any more, and every message that is loading is in a request. */
  lemma ResolveSendsAll(s: State, scopes: seq<Scope>, k: Key)
    requires Invariant(s) && ToResolve(s, scopes) && k in s.table
    ensures var t := Resolve(s, scopes);
            !t.resolveQueued && k in t.table && InFlight(t, t.table[k].requestId) && t.registered == s.registered
    ensures var t := Resolve(s, scopes);
            k in t.sent[t.table[k].requestId].listed && t.table[k].callbacks == s.table[k].callbacks
  {
    ResolveKeeps(s, scopes);
    SendEachUnsent(s, scopes, k);
    SendEachKeepsCallbacks(s, scopes, k);
    assert !Resolve(s, scopes).resolveQueued;
  }

  lemma {:induction false} SendEachKeepsCallbacks(s: State, scopes: seq<Scope>, k: Key)
    requires k in s.table
    ensures k in SendEach(s, scopes).table && SendEach(s, scopes).table[k].callbacks == s.table[k].callbacks
    ensures SendEach(s, scopes).registered == s.registered
  {
    if |scopes| > 0 {
      SendEachKeepsCallbacks(s, scopes[..|scopes| - 1], k);
    }
  }

  /** A callback that the reply runs was waiting, at a message the request listed. */
  lemma CallbackAnswered(s: State, id: nat, callbacks: seq<nat>, n: nat)
    requires Invariant(s) && InFlight(s, id) && ToRun(s, id, callbacks)
    ensures n in callbacks ==> Waits(s, n) && AnsweredBy(s, id, s.registered[n])
    ensures n !in callbacks && Waits(s, n) ==> !AnsweredBy(s, id, s.registered[n])
  {
    if n in callbacks {
      var k :| AnsweredBy(s, id, k) && WaitsAt(s, n, k);
      assert RegisteredFor(s, n, k);
    }
  }

  lemma ReplyRan(s: State, id: nat, callbacks: seq<nat>)
    requires id in s.sent
    ensures var ran := Reply(s, id, callbacks).ran;
            && |ran| == |s.ran| + |callbacks|
            && (forall i | 0 <= i < |s.ran| :: ran[i] == s.ran[i])
            && (forall i | |s.ran| <= i < |ran| :: ran[i] == Ran(callbacks[i - |s.ran|], id))
    ensures forall n :: HasRun(Reply(s, id, callbacks), n) <==> HasRun(s, n) || n in callbacks
  {
    var t := Reply(s, id, callbacks);
    forall n
      ensures HasRun(t, n) <==> HasRun(s, n) || n in callbacks
    {
      if HasRun(s, n) {
        var i :| 0 <= i < |s.ran| && s.ran[i].callback == n;
        assert t.ran[i] == s.ran[i];
      }
      if n in callbacks {
        var i :| 0 <= i < |callbacks| && callbacks[i] == n;
        assert t.ran[|s.ran| + i] == Ran(n, id);
      }
    }
  }

  lemma ReplyKeepsRan(s: State, id: nat, callbacks: seq<nat>)
    requires Invariant(s) && InFlight(s, id) && ToRun(s, id, callbacks)
    ensures RanInvariant(Reply(s, id, callbacks))
  {
    var t := Reply(s, id, callbacks);
    ReplyRan(s, id, callbacks);
    forall i | |s.ran| <= i < |t.ran|
      ensures t.ran[i].callback in callbacks && !HasRun(s, t.ran[i].callback)
      ensures t.ran[i].callback < |s.registered| && s.registered[t.ran[i].callback] in s.sent[id].listed
    {
      CallbackAnswered(s, id, callbacks, t.ran[i].callback);
    }
    forall i, j | 0 <= i < j < |t.ran|
      ensures t.ran[i].callback != t.ran[j].callback
    {
      if i < |s.ran| <= j {
        assert HasRun(s, s.ran[i].callback);
      }
    }
  }

  lemma ReplyKeeps(s: State, id: nat, callbacks: seq<nat>)
    requires Invariant(s) && InFlight(s, id) && ToRun(s, id, callbacks)
    ensures Invariant(Reply(s, id, callbacks))
  {
    var t := Reply(s, id, callbacks);
    ReplyKeepsRan(s, id, callbacks);
    ReplyRan(s, id, callbacks);
    assert forall n: nat, k | WaitsAt(t, n, k) :: WaitsAt(s, n, k);
    forall n | 0 <= n < |t.registered|
      ensures HasRun(t, n) <==> !Waits(t, n)
    {
      CallbackAnswered(s, id, callbacks, n);
    }
  }

  /** A run of the protocol, from nothing, with its steps interleaved in any way. */
  ghost predicate IsRun(states: seq<State>) {
    && |states| > 0 && states[0] == INITIAL
    && (forall i | 0 <= i < |states| - 1 :: Next(states[i], states[i + 1]))
  }

  lemma NextKeeps(s: State, t: State)
    requires Invariant(s) && Next(s, t)
    ensures Invariant(t)
  {
    if k, done :| t == Ask(s, k, done) {
      AskKeeps(s, k, done);
    } else if scopes :| ToResolve(s, scopes) && t == Resolve(s, scopes) {
      ResolveKeeps(s, scopes);
    } else {
      var id, callbacks :| InFlight(s, id) && ToRun(s, id, callbacks) && t == Reply(s, id, callbacks);
      ReplyKeeps(s, id, callbacks);
    }
  }

  lemma {:induction false} Reachable(states: seq<State>)
    requires IsRun(states)
    ensures Invariant(Last(states))
  {
    if |states| > 1 {
      Reachable(states[..|states| - 1]);
      NextKeeps(states[|states| - 2], Last(states));
    }
  }

  ghost predicate RanAt(s: State, n: nat, i: nat) {
    i < |s.ran| && s.ran[i].callback == n
  }

  /** No message is ever in two requests in flight at once. */
  lemma OneRequestPerMessage(states: seq<State>, k: Key, id: nat, id': nat)
    requires IsRun(states)
    requires InFlight(Last(states), id) && InFlight(Last(states), id')
    requires k in Last(states).sent[id].listed && k in Last(states).sent[id'].listed
    ensures id == id'
  {
    Reachable(states);
    assert AnsweredBy(Last(states), id, k) && AnsweredBy(Last(states), id', k);
  }

  /** In every reachable state a callback has run at most once, and only after a reply about its own message. */
  lemma RanOnce(states: seq<State>, n: nat)
    requires IsRun(states)
    ensures var s := Last(states);
            && (forall i: nat, j: nat | RanAt(s, n, i) && RanAt(s, n, j) :: i == j)
            && (forall i: nat | RanAt(s, n, i) ::
                  && n < |s.registered| && s.ran[i].request in s.replied && s.ran[i].request in s.sent
                  && s.registered[n] in s.sent[s.ran[i].request].listed)
  {
    Reachable(states);
  }

  /** Once nothing is queued and every request was answered, each registered callback has run exactly once. */
  lemma AllRun(states: seq<State>, n: nat)
    requires IsRun(states)
    requires var s := Last(states); !s.resolveQueued && (forall id | id in s.sent :: id in s.replied)
    requires n < |Last(states).registered|
    ensures Last(states).table == map[]
    ensures exists i: nat :: RanAt(Last(states), n, i) && forall j: nat | RanAt(Last(states), n, j) :: j == i
  {
    Reachable(states);
    var s := Last(states);
    assert forall k :: k !in s.table;
    assert !Waits(s, n);
    var i: nat :| 0 <= i < |s.ran| && s.ran[i].callback == n;
    assert RanAt(s, n, i);
    RanOnce(states, n);
  }

  // ---------- the client ----------

  function TableOf(plain: map<int, Loading>, channels: map<nat, map<int, Loading>>, scope: Scope): map<int, Loading> {
    match scope
    case Plain => plain
    case InChannel(c) => if c in channels then channels[c] else map[]
  }

  /** The part of the state that one table holds. */
  ghost predicate Mirrors(mine: map<int, Loading>, table: map<Key, Loading>, scope: Scope) {
    && (forall m :: m in mine <==> Key(scope, m) in table)
    && (forall m | m in mine :: mine[m] == table[Key(scope, m)])
  }

  /** The two tables of the client hold exactly the loadings of the state. */
  ghost predicate Represents(plain: map<int, Loading>, channels: map<nat, map<int, Loading>>,
                             table: map<Key, Loading>)
  {
    forall scope: Scope :: Mirrors(TableOf(plain, channels, scope), table, scope)
  }

  ghost predicate Stored(plain: map<int, Loading>, channels: map<nat, map<int, Loading>>, plain': map<int, Loading>,
                         channels': map<nat, map<int, Loading>>, scope: Scope, mine: map<int, Loading>) {
    && TableOf(plain', channels', scope) == mine
    && (forall other | other != scope :: TableOf(plain', channels', other) == TableOf(plain, channels, other))
  }

  lemma StoreRepresents(plain: map<int, Loading>, channels: map<nat, map<int, Loading>>, table: map<Key, Loading>,
                        plain': map<int, Loading>, channels': map<nat, map<int, Loading>>, table': map<Key, Loading>,
                        scope: Scope, mine: map<int, Loading>)
    requires Represents(plain, channels, table) && Stored(plain, channels, plain', channels', scope, mine)
    requires Mirrors(mine, table', scope)
    requires forall k: Key | k.scope != scope :: k in table <==> k in table'
    requires forall k | k in table && k.scope != scope :: table'[k] == table[k]
    ensures Represents(plain', channels', table')
  {
    forall other: Scope
      ensures Mirrors(TableOf(plain', channels', other), table', other)
    {
      assert Mirrors(TableOf(plain, channels, other), table, other);
    }
  }

  function Extended(table: map<int, Loading>, msg: int, callback: Option<nat>): Loading {
    var was := if msg in table then table[msg] else Loading(0, []);
    if callback.Some? then was.(callbacks := was.callbacks + [callback.value]) else was
  }

  lemma AskRepresents(plain: map<int, Loading>, channels: map<nat, map<int, Loading>>, s: State,
                      plain': map<int, Loading>, channels': map<nat, map<int, Loading>>,
                      scope: Scope, msg: int, callback: Option<nat>)
    requires Represents(plain, channels, s.table) && (callback.Some? ==> callback.value == |s.registered|)
    requires var mine := TableOf(plain, channels, scope);
             Stored(plain, channels, plain', channels', scope, mine[msg := Extended(mine, msg, callback)])
    ensures Represents(plain', channels', Ask(s, Key(scope, msg), callback.Some?).table)
    ensures var mine := TableOf(plain, channels, scope);
            Extended(mine, msg, callback).requestId == LoadingOf(s, Key(scope, msg)).requestId
  {
    var mine := TableOf(plain, channels, scope);
    assert Mirrors(mine, s.table, scope);
    StoreRepresents(plain, channels, s.table, plain', channels', Ask(s, Key(scope, msg), callback.Some?).table,
                    scope, mine[msg := Extended(mine, msg, callback)]);
  }

  function UnsentIds(mine: map<int, Loading>): set<int> {
    set m | m in mine && mine[m].requestId == 0
  }

  lemma UnsentMirrored(mine: map<int, Loading>, s: State, scope: Scope)
    requires Mirrors(mine, s.table, scope)
    ensures forall m :: m in UnsentIds(mine) <==> Key(scope, m) in Unsent(s, scope)
    ensures Unsent(s, scope) == {} <==> UnsentIds(mine) == {}
    ensures UnsentIds(mine) != {} ==> mine != map[]
  {
    if UnsentIds(mine) != {} {
      var m := Member(UnsentIds(mine));
      assert Key(scope, m) in Unsent(s, scope) && m in mine;
    }
    if Unsent(s, scope) != {} {
      var k :| k in Unsent(s, scope);
      assert k == Key(scope, k.msg);
      assert k.msg in UnsentIds(mine);
    }
  }

  /** How far the pass over the channels is: some tables have sent, some are still to be looked at. */
  ghost predicate Resolving(s: State, scopes: seq<Scope>, remaining: set<nat>) {
    && Distinct(scopes)
    && (forall scope | scope in scopes ::
          Unsent(s, scope) != {} && (scope.InChannel? ==> scope.channel !in remaining))
    && (forall scope | scope !in scopes && (scope.InChannel? ==> scope.channel !in remaining) :: Unsent(s, scope) == {})
  }

  lemma ResolvingOne(s: State, scopes: seq<Scope>, remaining: set<nat>, c: nat)
    requires Resolving(s, scopes, remaining) && c in remaining
    ensures Unsent(SendEach(s, scopes), InChannel(c)) == Unsent(s, InChannel(c))
    ensures Unsent(s, InChannel(c)) == {} ==> Resolving(s, scopes, remaining - {c})
    ensures Unsent(s, InChannel(c)) != {} ==> Resolving(s, scopes + [InChannel(c)], remaining - {c})
    ensures SendEach(s, scopes + [InChannel(c)]) == SendFor(SendEach(s, scopes), InChannel(c))
  {
    SendEachLeaves(s, scopes, InChannel(c));
    assert (scopes + [InChannel(c)])[..|scopes|] == scopes;
  }

  lemma ResolvingStart(s: State, channels: map<nat, map<int, Loading>>, plain: map<int, Loading>)
    requires Represents(plain, channels, s.table)
    ensures Resolving(s, if Unsent(s, Plain) == {} then [] else [Plain], channels.Keys)
    ensures SendEach(s, if Unsent(s, Plain) == {} then [] else [Plain])
         == if Unsent(s, Plain) == {} then s else SendFor(s, Plain)
  {
    forall scope: Scope | scope.InChannel? && scope.channel !in channels
      ensures Unsent(s, scope) == {}
    {
      assert Mirrors(TableOf(plain, channels, scope), s.table, scope);
      UnsentMirrored(TableOf(plain, channels, scope), s, scope);
    }
    assert [Plain][..0] == [];
  }

  /** A channel table without messages has nothing to send, and may go. */
  lemma EraseRepresents(plain: map<int, Loading>, channels: map<nat, map<int, Loading>>, s: State, c: nat)
    requires Represents(plain, channels, s.table) && c in channels && channels[c] == map[]
    ensures Represents(plain, channels - {c}, s.table) && Unsent(s, InChannel(c)) == {}
  {
    assert Mirrors(TableOf(plain, channels, InChannel(c)), s.table, InChannel(c));
    UnsentMirrored(map[], s, InChannel(c));
    StoreRepresents(plain, channels, s.table, plain, channels - {c}, s.table, InChannel(c), map[]);
  }

  function MarkSent(mine: map<int, Loading>, id: nat): map<int, Loading> {
    map m | m in mine :: if mine[m].requestId == 0 then mine[m].(requestId := id) else mine[m]
  }

  lemma SendRepresents(plain: map<int, Loading>, channels: map<nat, map<int, Loading>>, s: State,
                       plain': map<int, Loading>, channels': map<nat, map<int, Loading>>, scope: Scope)
    requires Represents(plain, channels, s.table)
    requires Stored(plain, channels, plain', channels', scope, MarkSent(TableOf(plain, channels, scope), s.nextRequest))
    ensures Represents(plain', channels', SendFor(s, scope).table)
  {
    var mine := TableOf(plain, channels, scope);
    assert Mirrors(mine, s.table, scope);
    UnsentMirrored(mine, s, scope);
    StoreRepresents(plain, channels, s.table, plain', channels', SendFor(s, scope).table, scope,
                    MarkSent(mine, s.nextRequest));
  }

  lemma {:induction false} SendEachLeaves(s: State, scopes: seq<Scope>, scope: Scope)
    requires scope !in scopes
    ensures Unsent(SendEach(s, scopes), scope) == Unsent(s, scope)
  {
    if |scopes| > 0 {
      SendEachLeaves(s, scopes[..|scopes| - 1], scope);
    }
  }

  lemma ReplyRepresents(plain: map<int, Loading>, channels: map<nat, map<int, Loading>>, s: State, id: nat,
                        callbacks: seq<nat>, plain': map<int, Loading>, channels': map<nat, map<int, Loading>>)
    requires Represents(plain, channels, s.table) && id in s.sent
    requires var mine := TableOf(plain, channels, s.sent[id].scope);
             Stored(plain, channels, plain', channels', s.sent[id].scope, Unanswered(mine, id))
    ensures Represents(plain', channels', Reply(s, id, callbacks).table)
  {
    var mine := TableOf(plain, channels, s.sent[id].scope);
    assert Mirrors(mine, s.table, s.sent[id].scope);
    StoreRepresents(plain, channels, s.table, plain', channels', Reply(s, id, callbacks).table, s.sent[id].scope,
                    Unanswered(mine, id));
  }

  function Unanswered(mine: map<int, Loading>, id: nat): map<int, Loading> {
    map m | m in mine && mine[m].requestId != id :: mine[m]
  }

  predicate IsFor(registered: seq<Key>, n: nat, msg: int) {
    n < |registered| && registered[n].msg == msg
  }

  /** The callbacks of a message are those registered for it that wait, in order. */
  ghost predicate Placed(mine: map<int, Loading>, registered: seq<Key>) {
    && (forall m | m in mine :: Ascending(mine[m].callbacks))
    && (forall m, n: nat | m in mine && n in mine[m].callbacks :: IsFor(registered, n, m))
  }

  /** The messages of a set whose callbacks have been collected for the reply, in order. */
  ghost predicate Collected(mine: map<int, Loading>, registered: seq<Key>, id: nat, seen: set<int>,
                            callbacks: seq<nat>)
  {
    && Sorted(registered, callbacks)
    && (forall n: nat :: n in callbacks <==>
          exists m :: m in seen && m in mine && mine[m].requestId == id && n in mine[m].callbacks)
  }

  lemma SortedAppend(registered: seq<Key>, a: seq<nat>, b: seq<nat>)
    requires Sorted(registered, a) && Sorted(registered, b)
    requires forall m: nat, n: nat | m in a && n in b :: Before(registered, m, n)
    ensures Sorted(registered, a + b)
  {
    forall i, j | 0 <= i < j < |a + b|
      ensures Before(registered, (a + b)[i], (a + b)[j])
    {
      if i < |a| <= j {
        assert (a + b)[i] in a && (a + b)[j] in b;
      }
    }
  }

  lemma SortedHere(registered: seq<Key>, callbacks: seq<nat>, msg: int)
    requires Ascending(callbacks)
    requires forall n: nat | n in callbacks :: IsFor(registered, n, msg)
    ensures Sorted(registered, callbacks)
  {
    forall i, j | 0 <= i < j < |callbacks|
      ensures Before(registered, callbacks[i], callbacks[j])
    {
      assert IsFor(registered, callbacks[i], msg) && IsFor(registered, callbacks[j], msg);
    }
  }

  lemma CollectOne(mine: map<int, Loading>, registered: seq<Key>, id: nat, seen: set<int>, callbacks: seq<nat>, m: int)
    requires Collected(mine, registered, id, seen, callbacks) && Placed(mine, registered) && m in mine
    requires forall x | x in seen :: x < m
    ensures Collected(mine, registered, id, seen + {m},
                      if mine[m].requestId == id then callbacks + mine[m].callbacks else callbacks)
  {
    if mine[m].requestId == id {
      var more := callbacks + mine[m].callbacks;
      forall n: nat
        ensures n in more <==>
                  exists m' :: m' in seen + {m} && m' in mine && mine[m'].requestId == id && n in mine[m'].callbacks
      {
        assert n in more <==> n in callbacks || n in mine[m].callbacks;
      }
      SortedHere(registered, mine[m].callbacks, m);
      forall x: nat, y: nat | x in callbacks && y in mine[m].callbacks
        ensures Before(registered, x, y)
      {
        var m' :| m' in seen && m' in mine && x in mine[m'].callbacks;
        assert IsFor(registered, x, m') && IsFor(registered, y, m);
      }
      SortedAppend(registered, callbacks, mine[m].callbacks);
    }
  }

  lemma PlacedIn(mine: map<int, Loading>, s: State, scope: Scope)
    requires WaitingInvariant(s) && Mirrors(mine, s.table, scope)
    ensures Placed(mine, s.registered)
  {
    forall m, n: nat | m in mine && n in mine[m].callbacks
      ensures IsFor(s.registered, n, m)
    {
      assert WaitsAt(s, n, Key(scope, m)) && RegisteredFor(s, n, Key(scope, m));
    }
  }

  lemma CollectedAll(mine: map<int, Loading>, s: State, id: nat, callbacks: seq<nat>)
    requires id in s.sent && Mirrors(mine, s.table, s.sent[id].scope)
    requires Collected(mine, s.registered, id, mine.Keys, callbacks)
    ensures ToRun(s, id, callbacks)
  {
    forall n: nat
      ensures n in callbacks <==> exists k :: AnsweredBy(s, id, k) && WaitsAt(s, n, k)
    {
      if n in callbacks {
        var m :| m in mine && mine[m].requestId == id && n in mine[m].callbacks;
        assert AnsweredBy(s, id, Key(s.sent[id].scope, m)) && WaitsAt(s, n, Key(s.sent[id].scope, m));
      }
      if k :| AnsweredBy(s, id, k) && WaitsAt(s, n, k) {
        assert k == Key(s.sent[id].scope, k.msg);
        assert k.msg in mine;
      }
    }
  }

  /** The pass over a table by ascending message ids: what the reply settles is taken out. */
  method CollectCallbacks(table: map<int, Loading>, id: nat, ghost registered: seq<Key>)
    returns (callbacks: seq<nat>, rest: map<int, Loading>)
    requires Placed(table, registered)
    ensures Collected(table, registered, id, table.Keys, callbacks) && rest == Unanswered(table, id)
  {
    callbacks, rest := [], table;
    var remaining := table.Keys;
    while remaining != {}
      invariant remaining <= table.Keys && forall x, y | x in table.Keys - remaining && y in remaining :: x < y
      invariant Collected(table, registered, id, table.Keys - remaining, callbacks)
      invariant rest == map m | m in table && (m in remaining || table[m].requestId != id) :: table[m]
      decreases remaining
    {
      ghost var least := Least(remaining);
      var m :| m in remaining && forall y | y in remaining :: m <= y;
      CollectOne(table, registered, id, table.Keys - remaining, callbacks, m);
      assert table.Keys - remaining + {m} == table.Keys - (remaining - {m});
      if table[m].requestId == id {
        callbacks := callbacks + table[m].callbacks;
        rest := rest - {m};
      }
      remaining := remaining - {m};
    }
    assert table.Keys - remaining == table.Keys;
  }

  class Client {
    var messageDataRequests: map<int, Loading>
    var channelMessageDataRequests: map<nat, map<int, Loading>>
    var resolveQueued: bool
    var nextRequest: nat
    ghost var state: State

    ghost predicate Valid()
      reads this
    {
      && Invariant(state)
      && Represents(messageDataRequests, channelMessageDataRequests, state.table)
      && resolveQueued == state.resolveQueued && nextRequest == state.nextRequest
    }

    constructor ()
      ensures Valid() && state == INITIAL
    {
      messageDataRequests, channelMessageDataRequests := map[], map[];
      resolveQueued, nextRequest := false, 1;
      state := INITIAL;
    }

    /** Writes one table back; a channel without a table gets one. */
    method Store(scope: Scope, table: map<int, Loading>)
      modifies this`messageDataRequests, this`channelMessageDataRequests
      ensures Stored(old(messageDataRequests), old(channelMessageDataRequests),
                     messageDataRequests, channelMessageDataRequests, scope, table)
      ensures channelMessageDataRequests.Keys
           == old(channelMessageDataRequests.Keys) + (match scope case Plain => {} case InChannel(c) => {c})
    {
      match scope {
        case Plain => messageDataRequests := table;
        case InChannel(c) => channelMessageDataRequests := channelMessageDataRequests[c := table];
      }
    }

    method RequestMessageData(scope: Scope, msg: int, callback: Option<nat>)
      requires Valid() && (callback.Some? ==> callback.value == |state.registered|)
      modifies this
      ensures Valid() && state == Ask(old(state), Key(scope, msg), callback.Some?)
    {
      var table := TableOf(messageDataRequests, channelMessageDataRequests, scope);
      var request := if msg in table then table[msg] else Loading(0, []);
      if callback.Some? {
        request := request.(callbacks := request.callbacks + [callback.value]);
      }
      Store(scope, table[msg := request]);
      if request.requestId == 0 {
        resolveQueued := true;
      }
      AskRepresents(old(messageDataRequests), old(channelMessageDataRequests), state,
                    messageDataRequests, channelMessageDataRequests, scope, msg, callback);
      AskKeeps(state, Key(scope, msg), callback.Some?);
      state := Ask(state, Key(scope, msg), callback.Some?);
    }

    method ForgetChannel(channel: nat)
      modifies this`channelMessageDataRequests
      ensures channelMessageDataRequests == old(channelMessageDataRequests) - {channel}
      ensures Stored(messageDataRequests, old(channelMessageDataRequests),
                     messageDataRequests, channelMessageDataRequests, InChannel(channel), map[])
    {
      channelMessageDataRequests := channelMessageDataRequests - {channel};
    }

    /** The request for a table with something to list. */
    method SendTable(scope: Scope)
      requires Valid() && Unsent(state, scope) != {}
      modifies this`messageDataRequests, this`channelMessageDataRequests, this`nextRequest, this`state
      ensures Valid() && state == SendFor(old(state), scope)
      ensures channelMessageDataRequests.Keys
           == old(channelMessageDataRequests.Keys) + (match scope case Plain => {} case InChannel(c) => {c})
    {
      Store(scope, MarkSent(TableOf(messageDataRequests, channelMessageDataRequests, scope), nextRequest));
      SendRepresents(old(messageDataRequests), old(channelMessageDataRequests), state,
                     messageDataRequests, channelMessageDataRequests, scope);
      SendForKeeps(state, scope);
      nextRequest := nextRequest + 1;
      state := SendFor(state, scope);
    }

    /** The request for one table, if it has anything to list. */
    method ResolveTable(scope: Scope)
      requires Valid()
      modifies this`messageDataRequests, this`channelMessageDataRequests, this`nextRequest, this`state
      ensures Valid() && channelMessageDataRequests.Keys == old(channelMessageDataRequests.Keys)
      ensures state == if Unsent(old(state), scope) == {} then old(state) else SendFor(old(state), scope)
    {
      var table := TableOf(messageDataRequests, channelMessageDataRequests, scope);
      assert Mirrors(table, state.table, scope);
      UnsentMirrored(table, state, scope);
      if UnsentIds(table) != {} {
        SendTable(scope);
      }
    }

    /** One channel of the pass: a table without messages goes, any other sends what it has to send. */
    method ResolveChannel(channel: nat)
      requires Valid() && channel in channelMessageDataRequests
      modifies this`messageDataRequests, this`channelMessageDataRequests, this`nextRequest, this`state
      ensures Valid() && channelMessageDataRequests.Keys >= old(channelMessageDataRequests.Keys) - {channel}
      ensures state == if Unsent(old(state), InChannel(channel)) == {} then old(state)
                       else SendFor(old(state), InChannel(channel))
    {
      if channelMessageDataRequests[channel] == map[] {
        EraseRepresents(messageDataRequests, channelMessageDataRequests, state, channel);
        ForgetChannel(channel);
      } else {
        ResolveTable(InChannel(channel));
      }
    }

    /** The queued call: one request for the common table, one for each channel table, as far as they have news. */
    method ResolveMessageDatas() returns (ghost scopes: seq<Scope>)
      requires Valid()
      modifies this
      ensures Valid() && ToResolve(old(state), scopes) && state == Resolve(old(state), scopes)
    {
      scopes := SendRequests();
      ResolveKeeps(old(state), scopes);
      resolveQueued := false;
      state := Resolve(old(state), scopes);
    }

    method SendRequests() returns (ghost scopes: seq<Scope>)
      requires Valid()
      modifies this`messageDataRequests, this`channelMessageDataRequests, this`nextRequest, this`state
      ensures Valid() && ToResolve(old(state), scopes) && state == SendEach(old(state), scopes)
    {
      ResolvingStart(state, channelMessageDataRequests, messageDataRequests);
      scopes := if Unsent(state, Plain) == {} then [] else [Plain];
      ResolveTable(Plain);
      var remaining := channelMessageDataRequests.Keys;
      while remaining != {}
        invariant Valid() && remaining <= channelMessageDataRequests.Keys
        invariant Resolving(old(state), scopes, remaining) && state == SendEach(old(state), scopes)
        decreases remaining
      {
        var c :| c in remaining;
        ResolvingOne(old(state), scopes, remaining, c);
        scopes := if Unsent(state, InChannel(c)) == {} then scopes else scopes + [InChannel(c)];
        ResolveChannel(c);
        remaining := remaining - {c};
      }
    }

    /** What a reply does, whether it brings messages or an error; the callbacks are run after the tables changed. */
    method FinalizeMessageDataRequest(scope: Scope, id: nat) returns (callbacks: seq<nat>)
      requires Valid() && InFlight(state, id) && state.sent[id].scope == scope
      modifies this
      ensures Valid() && ToRun(old(state), id, callbacks) && state == Reply(old(state), id, callbacks)
    {
      var table := TableOf(messageDataRequests, channelMessageDataRequests, scope);
      assert Mirrors(table, state.table, scope);
      PlacedIn(table, state, scope);
      var rest;
      callbacks, rest := CollectCallbacks(table, id, state.registered);
      CollectedAll(table, state, id, callbacks);
      if scope.InChannel? && rest == map[] {
        ForgetChannel(scope.channel);
      } else {
        Store(scope, rest);
      }
      ReplyRepresents(old(messageDataRequests), old(channelMessageDataRequests), state, id, callbacks,
                      messageDataRequests, channelMessageDataRequests);
      ReplyKeeps(state, id, callbacks);
      state := Reply(state, id, callbacks);
    }
  }
}
