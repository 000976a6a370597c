/** Loading the chats list of a folder: slices of the list, the pinned chats beside it, and the end of the load. */
module DialogsLoad {
  import opened Util

  /** Where the next slice starts. */
  datatype Offset = Offset(date: nat, msg: nat, peer: nat)

  datatype LoadState = LoadState(
    offset: Offset,
    requestId: nat,
    listReceived: bool,
    pinnedRequestId: nat,
    pinnedReceived: bool)

  const NEW_LOAD := LoadState(Offset(0, 0, 0), 0, false, 0, false)

  /**
   * One folder, or the main list: the state of its load while there is one, the list and pinned requests in flight,
   * whether its pinned chats are being reloaded, with the requests for that; and, as history, how many loads began and
   * how often the end of the list was announced.
   */
  datatype Folder = Folder(
    load: Option<LoadState>,
    lists: set<nat>,
    pinned: set<nat>,
    reloading: bool,
    reloads: set<nat>,
    begun: nat,
    announced: nat)

  /** The main list loads from the start and only once; the folders when they are asked for. */
  const MAIN := Folder(Some(NEW_LOAD), {}, {}, false, {}, 1, 0)
  const FOLDER := Folder(None, {}, {}, false, {}, 0, 0)

  /** What a list request brings. */
  datatype ListResult = Full | Slice(next: Option<Offset>) | NotModified | Failed

  // ---------- the steps; `next` is the first request id not yet handed out ----------

  /** A load with both parts is over. */
  function Finished(load: Option<LoadState>): Option<LoadState> {
    if load.Some? && load.value.listReceived && load.value.pinnedReceived then None else load
  }

  function Finish(f: Folder): Folder {
    f.(load := Finished(f.load),
       announced := if f.load.Some? && Finished(f.load) == None then f.announced + 1 else f.announced)
  }

  predicate SendsPinned(load: Option<LoadState>) {
    load.Some? && !load.value.pinnedReceived && load.value.pinnedRequestId == 0
  }

  function PinnedLoad(load: Option<LoadState>, next: nat): Option<LoadState> {
    if SendsPinned(load) then Some(load.value.(pinnedRequestId := next)) else load
  }

  function PinnedIds(load: Option<LoadState>): nat {
    if SendsPinned(load) then 1 else 0
  }

  function RequestPinned(f: Folder, next: nat): Folder {
    f.(load := PinnedLoad(f.load, next), pinned := if SendsPinned(f.load) then f.pinned + {next} else f.pinned)
  }

  predicate SendsList(load: Option<LoadState>, blocked: bool) {
    load.Some? && load.value.requestId == 0 && !blocked
  }

  /** The next slice is asked for, and with it the pinned chats unless they came or are on their way. */
  function MoreLoad(load: Option<LoadState>, next: nat, blocked: bool): Option<LoadState> {
    if SendsList(load, blocked) then PinnedLoad(Some(load.value.(requestId := next)), next + 1) else load
  }

  function MoreIds(load: Option<LoadState>, blocked: bool): nat {
    if SendsList(load, blocked) then 1 + PinnedIds(load) else 0
  }

  function RequestMore(f: Folder, next: nat, blocked: bool): Folder {
    if !SendsList(f.load, blocked) then f
    else f.(load := MoreLoad(f.load, next, blocked), lists := f.lists + {next},
            pinned := if SendsPinned(f.load) then f.pinned + {next + 1} else f.pinned)
  }

  function Begun(load: Option<LoadState>, main: bool): Option<LoadState> {
    if load == None && !main then Some(NEW_LOAD) else load
  }

  function RequestDialogs(f: Folder, main: bool, next: nat, blocked: bool): Folder {
    RequestMore(f.(load := Begun(f.load, main), begun := if f.load == None && !main then f.begun + 1 else f.begun),
                next, blocked)
  }

  /** The reply to a list request; without a state the failure handler has nothing to write to. */
  function ListReply(f: Folder, id: nat, r: ListResult): Folder
    requires f.load.Some?
  {
    var g := f.(lists := f.lists - {id});
    match r
    case Full => Finish(g.(load := Some(f.load.value.(listReceived := true))))
    case Slice(Some(offset)) => g.(load := Some(f.load.value.(offset := offset, requestId := 0)))
    case Slice(None) => Finish(g.(load := Some(f.load.value.(listReceived := true))))
    case NotModified => g
    case Failed => g.(load := Some(f.load.value.(requestId := 0)))
  }

  /** What that leaves of the load. */
  function ListLoad(l: LoadState, r: ListResult): Option<LoadState> {
    match r
    case Full => Finished(Some(l.(listReceived := true)))
    case Slice(Some(offset)) => Some(l.(offset := offset, requestId := 0))
    case Slice(None) => Finished(Some(l.(listReceived := true)))
    case NotModified => Some(l)
    case Failed => Some(l.(requestId := 0))
  }

  lemma ListReplyLoad(f: Folder, id: nat, r: ListResult)
    requires f.load.Some?
    ensures ListReply(f, id, r).load == ListLoad(f.load.value, r)
    ensures ListReply(f, id, r).announced == f.announced + if ListLoad(f.load.value, r) == None then 1 else 0
    ensures ListReply(f, id, r).reloading == f.reloading
  {
  }

  /** The reply to a pinned request, result or error alike. */
  function PinnedReply(f: Folder, id: nat): Folder {
    var g := f.(pinned := f.pinned - {id});
    if g.load == None then g
    else Finish(g.(load := Some(g.load.value.(pinnedRequestId := 0, pinnedReceived := true))))
  }

  /** The pinned chats are asked for again, load or no load, unless they are already. */
  function RequestReload(f: Folder, next: nat): Folder {
    if f.reloading then f else f.(reloading := true, reloads := f.reloads + {next})
  }

  function ReloadReply(f: Folder, id: nat): Folder {
    f.(reloading := false, reloads := f.reloads - {id})
  }

  datatype Action =
    | Dialogs(blocked: bool)
    | More(blocked: bool)
    | Pinned
    | ListGot(id: nat, result: ListResult)
    | PinnedGot(id: nat)
    | Reload
    | ReloadGot(id: nat)

  predicate Possible(f: Folder, a: Action) {
    && (a.ListGot? ==> a.id in f.lists)
    && (a.PinnedGot? ==> a.id in f.pinned)
    && (a.ReloadGot? ==> a.id in f.reloads)
  }

  /** A list reply finds the state it writes to. */
  predicate Safe(f: Folder, a: Action) {
    a.ListGot? ==> f.load.Some?
  }

  function Step(f: Folder, a: Action, main: bool, next: nat): Folder
    requires Safe(f, a)
  {
    match a
    case Dialogs(blocked) => RequestDialogs(f, main, next, blocked)
    case More(blocked) => RequestMore(f, next, blocked)
    case Pinned => RequestPinned(f, next)
    case ListGot(id, r) => ListReply(f, id, r)
    case PinnedGot(id) => PinnedReply(f, id)
    case Reload => RequestReload(f, next)
    case ReloadGot(id) => ReloadReply(f, id)
  }

  /** How many request ids a step takes. */
  function Ids(f: Folder, a: Action, main: bool): nat {
    match a
    case Dialogs(blocked) => MoreIds(Begun(f.load, main), blocked)
    case More(blocked) => MoreIds(f.load, blocked)
    case Pinned => PinnedIds(f.load)
    case Reload => if f.reloading then 0 else 1
    case _ => 0
  }

  // ---------- what every reachable folder satisfies ----------

  ghost predicate LoadInvariant(f: Folder, next: nat) {
    && next > 0
    && f.begun == f.announced + (if f.load.Some? then 1 else 0)
    && match f.load
       case None => f.lists == {} && f.pinned == {}
       case Some(l) =>
         && (f.lists == {} || (f.lists == {l.requestId} && l.requestId != 0 && !l.listReceived))
         && f.pinned == (if l.pinnedRequestId == 0 then {} else {l.pinnedRequestId})
         && (l.pinnedReceived ==> l.pinnedRequestId == 0)
         && !(l.listReceived && l.pinnedReceived)
         && (l.listReceived ==> l.requestId != 0)
         && l.requestId < next && l.pinnedRequestId < next
  }

  ghost predicate ReloadInvariant(f: Folder) {
    if f.reloading then exists id :: f.reloads == {id} else f.reloads == {}
  }

  ghost predicate Invariant(f: Folder, next: nat) {
    LoadInvariant(f, next) && ReloadInvariant(f)
  }

  lemma RequestsKeep(f: Folder, main: bool, next: nat, blocked: bool)
    requires LoadInvariant(f, next)
    ensures LoadInvariant(RequestDialogs(f, main, next, blocked), next + MoreIds(Begun(f.load, main), blocked))
    ensures LoadInvariant(RequestMore(f, next, blocked), next + MoreIds(f.load, blocked))
    ensures LoadInvariant(RequestPinned(f, next), next + PinnedIds(f.load))
  {
  }

  lemma ListReplyKeeps(f: Folder, next: nat, id: nat, r: ListResult)
    requires LoadInvariant(f, next) && id in f.lists
    ensures f.load.Some? && LoadInvariant(ListReply(f, id, r), next)
  {
  }

  lemma PinnedReplyKeeps(f: Folder, next: nat, id: nat)
    requires LoadInvariant(f, next) && id in f.pinned
    ensures LoadInvariant(PinnedReply(f, id), next)
  {
  }

  lemma ReloadKeeps(f: Folder, a: Action, main: bool, next: nat)
    requires ReloadInvariant(f) && Possible(f, a) && Safe(f, a)
    ensures ReloadInvariant(Step(f, a, main, next))
  {
  }

  lemma StepKeeps(f: Folder, a: Action, main: bool, next: nat)
    requires Invariant(f, next) && Possible(f, a)
    ensures Safe(f, a) && Invariant(Step(f, a, main, next), next + Ids(f, a, main))
  {
    match a {
      case Dialogs(blocked) => RequestsKeep(f, main, next, blocked);
      case More(blocked) => RequestsKeep(f, main, next, blocked);
      case Pinned => RequestsKeep(f, main, next, false);
      case ListGot(id, r) => ListReplyKeeps(f, next, id, r);
      case PinnedGot(id) => PinnedReplyKeeps(f, next, id);
      case _ =>
    }
    ReloadKeeps(f, a, main, next);
  }

  // ---------- loads that cannot end ----------

  /** The list is incomplete, nothing is on the way, and the state says that something is: nothing will be asked. */
  ghost predicate Stuck(f: Folder) {
    f.load.Some? && !f.load.value.listReceived && f.load.value.requestId != 0 && f.lists == {}
  }

  /**
   * Only a reply that says nothing has changed gets a load stuck, and then it stays so. The requests carry no hash, so
   * that no server should reply like this; the program logs it as an error and leaves the load as it is.
   */
  lemma StuckIff(f: Folder, a: Action, main: bool, next: nat)
    requires Invariant(f, next) && Possible(f, a) && Safe(f, a)
    ensures Stuck(Step(f, a, main, next)) <==> Stuck(f) || (a.ListGot? && a.result == NotModified)
    ensures Stuck(f) ==> Step(f, a, main, next).announced == f.announced
  {
    if a.ListGot? {
      assert f.lists - {a.id} == {};
    }
  }

  /** After a slice the load goes on at its offset, with the next request for more. */
  lemma SliceGoesOn(f: Folder, id: nat, offset: Offset, next: nat)
    requires Invariant(f, next) && id in f.lists
    ensures f.load.Some?
    ensures var g := RequestMore(ListReply(f, id, Slice(Some(offset))), next, false);
            && g.load.Some? && g.load.value.offset == offset && g.load.value.requestId == next && g.lists == {next}
            && !g.load.value.listReceived
  {
    assert f.lists - {id} == {};
  }

  /** The offset of a load changes with nothing else; a failed request is made again at the same one. */
  lemma OffsetStays(f: Folder, a: Action, main: bool, next: nat)
    requires Invariant(f, next) && Possible(f, a) && Safe(f, a)
    requires f.load.Some? && Step(f, a, main, next).load.Some?
    requires !(a.ListGot? && a.result.Slice? && a.result.next.Some?)
    ensures Step(f, a, main, next).load.value.offset == f.load.value.offset
    ensures a.ListGot? && a.result == Failed ==> Step(f, a, main, next).load.value.requestId == 0
  {
  }

  /** A step takes exactly the ids of the requests it sends, the next ones. */
  lemma IdsAreNew(f: Folder, a: Action, main: bool, next: nat)
    requires Invariant(f, next) && Possible(f, a) && Safe(f, a)
    requires forall id | id in f.lists + f.pinned + f.reloads :: id < next
    ensures var g := Step(f, a, main, next);
            forall id :: id in g.lists + g.pinned + g.reloads && id !in f.lists + f.pinned + f.reloads <==>
              next <= id < next + Ids(f, a, main)
  {
    match a {
      case Dialogs(blocked) => RequestIds(f.(load := Begun(f.load, main)), next, blocked);
      case More(blocked) => RequestIds(f, next, blocked);
      case Pinned => RequestIds(f, next, false);
      case _ =>
    }
  }

  lemma RequestIds(f: Folder, next: nat, blocked: bool)
    requires forall id | id in f.lists + f.pinned + f.reloads :: id < next
    ensures var g := RequestMore(f, next, blocked);
            forall id :: id in g.lists + g.pinned + g.reloads <==>
              id in f.lists + f.pinned + f.reloads || next <= id < next + MoreIds(f.load, blocked)
    ensures var g := RequestPinned(f, next);
            forall id :: id in g.lists + g.pinned + g.reloads <==>
              id in f.lists + f.pinned + f.reloads || next <= id < next + PinnedIds(f.load)
  {
  }

  /** A reload of the pinned chats goes out unless one is out. */
  lemma ReloadGoesOut(f: Folder, next: nat)
    ensures var g := RequestReload(f, next);
            g.reloading && g.reloads == (if f.reloading then f.reloads else f.reloads + {next})
  {
  }

  // ---------- all folders together ----------

  datatype Key = Main | InFolder(id: nat)

  datatype State = State(folders: map<Key, Folder>, next: nat)

  const INITIAL := State(map[], 1)

  function FolderOf(s: State, key: Key): Folder {
    if key in s.folders then s.folders[key] else if key.Main? then MAIN else FOLDER
  }

  ghost predicate Enabled(s: State, key: Key, a: Action) {
    Possible(FolderOf(s, key), a) && Safe(FolderOf(s, key), a)
  }

  function Do(s: State, key: Key, a: Action): State
    requires Safe(FolderOf(s, key), a)
  {
    var f := FolderOf(s, key);
    State(s.folders[key := Step(f, a, key.Main?, s.next)], s.next + Ids(f, a, key.Main?))
  }

  /** At the start the main list is to be loaded, and no folder is. */
  lemma StartsWithMain(id: nat)
    ensures FolderOf(INITIAL, Main).load == Some(NEW_LOAD) && FolderOf(INITIAL, Main).begun == 1
    ensures FolderOf(INITIAL, InFolder(id)).load == None && FolderOf(INITIAL, InFolder(id)).begun == 0
  {
  }

  lemma DoKeeps(s: State, k: Key, a: Action, key: Key)
    requires Enabled(s, k, a) && Invariant(FolderOf(s, k), s.next) && Invariant(FolderOf(s, key), s.next)
    ensures Invariant(FolderOf(Do(s, k, a), key), Do(s, k, a).next)
  {
    StepKeeps(FolderOf(s, k), a, k.Main?, s.next);
  }

  ghost predicate Next(s: State, t: State) {
    exists key, a :: Enabled(s, key, a) && t == Do(s, key, a)
  }

  ghost predicate IsRun(states: seq<State>) {
    && |states| > 0 && states[0] == INITIAL
    && (forall i | 0 <= i < |states| - 1 :: Next(states[i], states[i + 1]))
  }

  lemma {:induction false} Reachable(states: seq<State>, i: nat, key: Key)
    requires IsRun(states) && i < |states|
    ensures Invariant(FolderOf(states[i], key), states[i].next)
  {
    if i > 0 {
      assert Next(states[i - 1], states[i - 1 + 1]);
      var k, a :| Enabled(states[i - 1], k, a) && states[i] == Do(states[i - 1], k, a);
      Reachable(states, i - 1, key);
      Reachable(states, i - 1, k);
      DoKeeps(states[i - 1], k, a, key);
    }
  }

  /**
   * In every reachable state a folder has at most one request of each kind in flight: for the list, for the pinned
   * chats of the load, and for a reload of them, which is in flight exactly while the folder is marked as reloading.
   * While a list request is in flight its load state exists, so that the failure handler may write to it; and each load
   * but the current one was announced as done exactly once.
   */
  lemma FoldersAreSound(states: seq<State>, i: nat, key: Key, a: Action)
    requires IsRun(states) && i < |states| && Possible(FolderOf(states[i], key), a)
    ensures var f := FolderOf(states[i], key);
            && Safe(f, a) && |f.lists| <= 1 && |f.pinned| <= 1
            && |f.reloads| == (if f.reloading then 1 else 0)
            && (f.lists != {} ==> f.load.Some? && f.lists == {f.load.value.requestId} && !f.load.value.listReceived)
            && f.begun == f.announced + (if f.load.Some? then 1 else 0)
  {
    Reachable(states, i, key);
    StepKeeps(FolderOf(states[i], key), a, key.Main?, states[i].next);
  }

  lemma NextByDo(s: State, key: Key, a: Action)
    requires Enabled(s, key, a)
    ensures Next(s, Do(s, key, a))
  {
  }

  /** It takes one request for the main list, answered that nothing has changed. */
  lemma StuckMain() returns (states: seq<State>)
    ensures IsRun(states) && |states| == 3
    ensures var f := FolderOf(Last(states), Main);
            Stuck(f) && f.announced == 0 && f.lists == {} && f.load.value.offset == Offset(0, 0, 0)
  {
    var asked := Do(INITIAL, Main, More(false));
    NextByDo(INITIAL, Main, More(false));
    assert FolderOf(asked, Main).lists == {1} && FolderOf(asked, Main).load.value.requestId == 1;
    var answered := Do(asked, Main, ListGot(1, NotModified));
    NextByDo(asked, Main, ListGot(1, NotModified));
    assert FolderOf(answered, Main).lists == {};
    states := [INITIAL, asked, answered];
  }

  /** A load ends by the reply that brings its second part, and its end is announced with it. */
  lemma EndsWithBothParts(states: seq<State>, i: nat, key: Key, a: Action)
    requires IsRun(states) && i < |states| && Enabled(states[i], key, a)
    ensures var f, g := FolderOf(states[i], key), FolderOf(Do(states[i], key, a), key);
            && g.announced == f.announced + (if f.load.Some? && g.load == None then 1 else 0)
            && (f.load.Some? ==>
                  (g.load == None <==>
                    || (a.ListGot? && (a.result == Full || a.result == Slice(None)) && f.load.value.pinnedReceived)
                    || (a.PinnedGot? && f.load.value.listReceived)))
  {
    Reachable(states, i, key);
  }

  /** The main list begins to load once, and so is announced at most once. */
  lemma {:induction false} MainLoadsOnce(states: seq<State>, i: nat)
    requires IsRun(states) && i < |states|
    ensures FolderOf(states[i], Main).begun == 1 && FolderOf(states[i], Main).announced <= 1
  {
    Reachable(states, i, Main);
    if i > 0 {
      MainLoadsOnce(states, i - 1);
      assert Next(states[i - 1], states[i - 1 + 1]);
      var k, a :| Enabled(states[i - 1], k, a) && states[i] == Do(states[i - 1], k, a);
    }
  }

  // ---------- the offset of the next slice ----------

  /** A chat of a slice with its last message; a message of a slice with its date. */
  datatype Dialog = Dialog(peer: nat, topMessage: nat) | Other
  datatype Message = Message(id: nat, peer: nat, date: nat)

  predicate Valid(d: Dialog) {
    d.Dialog? && d.peer != 0 && d.topMessage != 0
  }

  /** The date of the last of the messages that is the chat's last message, or 0. */
  function DateOf(d: Dialog, messages: seq<Message>): nat {
    if |messages| == 0 || !d.Dialog? then 0
    else if Last(messages).id == d.topMessage && Last(messages).peer == d.peer then Last(messages).date
    else DateOf(d, messages[..|messages| - 1])
  }

  /** A chat whose message has a date. */
  predicate Dated(d: Dialog, messages: seq<Message>) {
    Valid(d) && DateOf(d, messages) != 0
  }

  method FindDate(d: Dialog, messages: seq<Message>) returns (date: nat)
    requires d.Dialog?
    ensures date == DateOf(d, messages)
  {
    var i := |messages|;
    assert messages[..i] == messages;
    while i > 0
      invariant 0 <= i <= |messages| && DateOf(d, messages[..i]) == DateOf(d, messages)
    {
      assert messages[..i][..i - 1] == messages[..i - 1];
      i := i - 1;
      if messages[i].id == d.topMessage && messages[i].peer == d.peer {
        return messages[i].date;
      }
    }
    assert messages[..0] == [];
    return 0;
  }

  /** The chat and message of the last valid chat, with the date of the last chat that has one. */
  ghost predicate IsOffset(dialogs: seq<Dialog>, messages: seq<Message>, offset: Offset) {
    exists i, j | 0 <= i <= j < |dialogs| ::
      && Dated(dialogs[i], messages) && offset.date == DateOf(dialogs[i], messages)
      && (forall k | i < k < |dialogs| :: !Dated(dialogs[k], messages))
      && Valid(dialogs[j]) && offset.peer == dialogs[j].peer && offset.msg == dialogs[j].topMessage
      && (forall k | j < k < |dialogs| :: !Valid(dialogs[k]))
  }

  method FindOffset(dialogs: seq<Dialog>, messages: seq<Message>) returns (next: Option<Offset>)
    ensures next == None <==> forall k | 0 <= k < |dialogs| :: !Dated(dialogs[k], messages)
    ensures next.Some? ==> IsOffset(dialogs, messages, next.value)
  {
    var lastDate, lastPeer, lastMsgId := 0, 0, 0;
    ghost var j := |dialogs|;
    var i := |dialogs|;
    while i > 0
      invariant 0 <= i <= j <= |dialogs| && lastDate == 0
      invariant forall k | i <= k < |dialogs| :: !Dated(dialogs[k], messages)
      invariant forall k | j < k < |dialogs| :: !Valid(dialogs[k])
      invariant if j == |dialogs|
                then lastPeer == 0 && lastMsgId == 0 && forall k | i <= k < |dialogs| :: !Valid(dialogs[k])
                else Valid(dialogs[j]) && lastPeer == dialogs[j].peer && lastMsgId == dialogs[j].topMessage
    {
      i := i - 1;
      var dialog := dialogs[i];
      if dialog.Dialog? && dialog.peer != 0 && dialog.topMessage != 0 {
        if lastPeer == 0 {
          lastPeer := dialog.peer;
          j := i;
        }
        if lastMsgId == 0 {
          lastMsgId := dialog.topMessage;
        }
        lastDate := FindDate(dialog, messages);
        if lastDate != 0 {
          return Some(Offset(lastDate, lastMsgId, lastPeer));
        }
      }
    }
    return None;
  }

  ghost predicate NotIn(d: Dialog, messages: seq<Message>)
    requires d.Dialog?
  {
    forall m | m in messages :: m.id != d.topMessage || m.peer != d.peer
  }

  /** The date of a chat is that of the last message in the list that is its last message. */
  lemma {:induction false} DateIs(d: Dialog, before: seq<Message>, m: Message, after: seq<Message>)
    requires d.Dialog? && m.id == d.topMessage && m.peer == d.peer && NotIn(d, after)
    ensures DateOf(d, before + [m] + after) == m.date
    decreases |after|
  {
    var all := before + [m] + after;
    if |after| > 0 {
      var init := after[..|after| - 1];
      DateIs(d, before, m, init);
      assert all[..|all| - 1] == before + [m] + init && Last(all) == Last(after) && Last(after) in after;
    } else {
      assert Last(all) == m;
    }
  }

  lemma {:induction false} DateIsNone(d: Dialog, messages: seq<Message>)
    requires d.Dialog? && NotIn(d, messages)
    ensures DateOf(d, messages) == 0
  {
    if |messages| > 0 {
      assert Last(messages) in messages;
      DateIsNone(d, messages[..|messages| - 1]);
    }
  }

  /** The places of the last dated and the last valid chat. */
  ghost predicate OffsetAt(dialogs: seq<Dialog>, messages: seq<Message>, offset: Offset, i: int, j: int) {
    && 0 <= i <= j < |dialogs|
    && Dated(dialogs[i], messages) && offset.date == DateOf(dialogs[i], messages)
    && (forall k | i < k < |dialogs| :: !Dated(dialogs[k], messages))
    && Valid(dialogs[j]) && offset.peer == dialogs[j].peer && offset.msg == dialogs[j].topMessage
    && (forall k | j < k < |dialogs| :: !Valid(dialogs[k]))
  }

  lemma OffsetPlaces(dialogs: seq<Dialog>, messages: seq<Message>, offset: Offset)
    ensures IsOffset(dialogs, messages, offset) <==> exists i, j :: OffsetAt(dialogs, messages, offset, i, j)
  {
    if IsOffset(dialogs, messages, offset) {
      var i, j :| 0 <= i <= j < |dialogs|
               && Dated(dialogs[i], messages) && offset.date == DateOf(dialogs[i], messages)
               && (forall k | i < k < |dialogs| :: !Dated(dialogs[k], messages))
               && Valid(dialogs[j]) && offset.peer == dialogs[j].peer && offset.msg == dialogs[j].topMessage
               && (forall k | j < k < |dialogs| :: !Valid(dialogs[k]));
      assert OffsetAt(dialogs, messages, offset, i, j);
    }
  }

  lemma {:induction false} LastValid(dialogs: seq<Dialog>, i: int) returns (j: int)
    requires 0 <= i < |dialogs| && Valid(dialogs[i])
    ensures i <= j < |dialogs| && Valid(dialogs[j]) && forall k | j < k < |dialogs| :: !Valid(dialogs[k])
    decreases |dialogs| - i
  {
    if k :| i < k < |dialogs| && Valid(dialogs[k]) {
      j := LastValid(dialogs, k);
    } else {
      j := i;
    }
  }

  lemma OffsetAtEnd(dialogs: seq<Dialog>, d: Dialog, messages: seq<Message>, offset: Offset)
    requires Dated(d, messages)
    ensures IsOffset(dialogs + [d], messages, offset) <==>
              offset == Offset(DateOf(d, messages), d.topMessage, d.peer)
  {
    var all, n := dialogs + [d], |dialogs|;
    OffsetPlaces(all, messages, offset);
    assert all[n] == d;
    if i, j :| OffsetAt(all, messages, offset, i, j) {
      assert i == n && j == n;
    }
    if offset == Offset(DateOf(d, messages), d.topMessage, d.peer) {
      assert OffsetAt(all, messages, offset, n, n);
    }
  }

  lemma OffsetUndated(dialogs: seq<Dialog>, d: Dialog, messages: seq<Message>, offset: Offset)
    requires Valid(d) && !Dated(d, messages)
    ensures IsOffset(dialogs + [d], messages, offset) <==>
              && offset.msg == d.topMessage && offset.peer == d.peer
              && exists msg, peer :: IsOffset(dialogs, messages, Offset(offset.date, msg, peer))
  {
    var all, n := dialogs + [d], |dialogs|;
    OffsetPlaces(all, messages, offset);
    assert all[n] == d && forall k | 0 <= k < n :: all[k] == dialogs[k];
    if i, j :| OffsetAt(all, messages, offset, i, j) {
      assert j == n && i < n;
      var last := LastValid(dialogs, i);
      var before := Offset(offset.date, dialogs[last].topMessage, dialogs[last].peer);
      assert OffsetAt(dialogs, messages, before, i, last);
      OffsetPlaces(dialogs, messages, before);
    }
    if msg, peer :| IsOffset(dialogs, messages, Offset(offset.date, msg, peer)) {
      OffsetPlaces(dialogs, messages, Offset(offset.date, msg, peer));
      var i, j :| OffsetAt(dialogs, messages, Offset(offset.date, msg, peer), i, j);
      assert offset.msg == d.topMessage && offset.peer == d.peer ==> OffsetAt(all, messages, offset, i, n);
    }
  }

  lemma OffsetInvalid(dialogs: seq<Dialog>, d: Dialog, messages: seq<Message>, offset: Offset)
    requires !Valid(d)
    ensures IsOffset(dialogs + [d], messages, offset) <==> IsOffset(dialogs, messages, offset)
  {
    var all, n := dialogs + [d], |dialogs|;
    OffsetPlaces(all, messages, offset);
    OffsetPlaces(dialogs, messages, offset);
    assert all[n] == d && forall k | 0 <= k < n :: all[k] == dialogs[k];
    if i, j :| OffsetAt(all, messages, offset, i, j) {
      assert OffsetAt(dialogs, messages, offset, i, j);
    }
    if i, j :| OffsetAt(dialogs, messages, offset, i, j) {
      assert OffsetAt(all, messages, offset, i, j);
    }
  }

  /** The offset of a slice by its last chat: a dated one gives it, one without date gives chat and message only. */
  lemma OffsetByLast(dialogs: seq<Dialog>, d: Dialog, messages: seq<Message>, offset: Offset)
    ensures var valid := d.Dialog? && d.peer != 0 && d.topMessage != 0;
            && (valid && DateOf(d, messages) != 0 ==>
                  (IsOffset(dialogs + [d], messages, offset) <==>
                     offset == Offset(DateOf(d, messages), d.topMessage, d.peer)))
            && (valid && DateOf(d, messages) == 0 ==>
                  (IsOffset(dialogs + [d], messages, offset) <==>
                     && offset.msg == d.topMessage && offset.peer == d.peer
                     && exists msg, peer :: IsOffset(dialogs, messages, Offset(offset.date, msg, peer))))
            && (!valid ==> (IsOffset(dialogs + [d], messages, offset) <==> IsOffset(dialogs, messages, offset)))
  {
    if Dated(d, messages) {
      OffsetAtEnd(dialogs, d, messages, offset);
    } else if Valid(d) {
      OffsetUndated(dialogs, d, messages, offset);
    } else {
      OffsetInvalid(dialogs, d, messages, offset);
    }
  }

  // ---------- the client ----------

  class Client {
    var dialogsLoadState: Option<LoadState>
    var foldersLoadState: map<nat, LoadState>
    var pinnedDialogsReloads: set<Key>
    var nextRequest: nat
    ghost var state: State

    function DialogsLoadState(folder: Key): Option<LoadState>
      reads this`dialogsLoadState, this`foldersLoadState
    {
      match folder
      case Main => dialogsLoadState
      case InFolder(id) => if id in foldersLoadState then Some(foldersLoadState[id]) else None
    }

    ghost predicate Shows(s: State)
      reads this
    {
      && (forall key: Key :: DialogsLoadState(key) == FolderOf(s, key).load)
      && (forall key: Key :: key in pinnedDialogsReloads <==> FolderOf(s, key).reloading)
      && nextRequest == s.next
    }

    ghost predicate Valid()
      reads this
    {
      (forall key: Key :: Invariant(FolderOf(state, key), state.next)) && Shows(state)
    }

    constructor ()
      ensures Valid() && state == INITIAL && pinnedDialogsReloads == {}
    {
      dialogsLoadState, foldersLoadState, pinnedDialogsReloads, nextRequest := Some(NEW_LOAD), map[], {}, 1;
      state := INITIAL;
    }

    method SetState(folder: Key, load: Option<LoadState>)
      modifies this`dialogsLoadState, this`foldersLoadState
      ensures DialogsLoadState(folder) == load
      ensures forall other: Key | other != folder :: DialogsLoadState(other) == old(DialogsLoadState(other))
    {
      match folder {
        case Main => dialogsLoadState := load;
        case InFolder(id) =>
          foldersLoadState := match load
            case None => foldersLoadState - {id}
            case Some(l) => foldersLoadState[id := l];
      }
    }

    /** The history follows what the fields did. */
    ghost method Record(folder: Key, a: Action)
      requires forall key: Key :: Invariant(FolderOf(state, key), state.next)
      requires Enabled(state, folder, a) && Shows(Do(state, folder, a))
      modifies this`state
      ensures Valid() && state == Do(old(state), folder, a)
    {
      forall key: Key
        ensures Invariant(FolderOf(Do(state, folder, a), key), Do(state, folder, a).next)
      {
        DoKeeps(state, folder, a, key);
      }
      state := Do(state, folder, a);
    }

    method SendPinned(folder: Key)
      modifies this`dialogsLoadState, this`foldersLoadState, this`nextRequest
      ensures DialogsLoadState(folder) == PinnedLoad(old(DialogsLoadState(folder)), old(nextRequest))
      ensures nextRequest == old(nextRequest) + PinnedIds(old(DialogsLoadState(folder)))
      ensures forall other: Key | other != folder :: DialogsLoadState(other) == old(DialogsLoadState(other))
    {
      var load := DialogsLoadState(folder);
      if load == None || load.value.pinnedReceived || load.value.pinnedRequestId != 0 {
        return;
      }
      SetState(folder, Some(load.value.(pinnedRequestId := nextRequest)));
      nextRequest := nextRequest + 1;
    }

    method SendMore(folder: Key, blocked: bool)
      modifies this`dialogsLoadState, this`foldersLoadState, this`nextRequest
      ensures DialogsLoadState(folder) == MoreLoad(old(DialogsLoadState(folder)), old(nextRequest), blocked)
      ensures nextRequest == old(nextRequest) + MoreIds(old(DialogsLoadState(folder)), blocked)
      ensures forall other: Key | other != folder :: DialogsLoadState(other) == old(DialogsLoadState(other))
    {
      var load := DialogsLoadState(folder);
      if load == None || load.value.requestId != 0 || blocked {
        return;
      }
      SetState(folder, Some(load.value.(requestId := nextRequest)));
      nextRequest := nextRequest + 1;
      if !load.value.pinnedReceived {
        SendPinned(folder);
      }
    }

    /** The end of a load, if both parts are there; says whether the end is announced. */
    method DialogsLoadFinish(folder: Key) returns (notify: bool)
      modifies this`dialogsLoadState, this`foldersLoadState
      ensures DialogsLoadState(folder) == Finished(old(DialogsLoadState(folder)))
      ensures notify <==> old(DialogsLoadState(folder)).Some? && DialogsLoadState(folder) == None
      ensures forall other: Key | other != folder :: DialogsLoadState(other) == old(DialogsLoadState(other))
    {
      var load := DialogsLoadState(folder);
      if load == None || !load.value.listReceived || !load.value.pinnedReceived {
        return false;
      }
      SetState(folder, None);
      return true;
    }

    method RequestMoreDialogs(folder: Key, blocked: bool)
      requires Valid()
      modifies this
      ensures Valid() && state == Do(old(state), folder, More(blocked))
    {
      SendMore(folder, blocked);
      Record(folder, More(blocked));
    }

    method RequestDialogs(folder: Key, blocked: bool)
      requires Valid()
      modifies this
      ensures Valid() && state == Do(old(state), folder, Dialogs(blocked))
    {
      if folder.InFolder? && folder.id !in foldersLoadState {
        SetState(folder, Some(NEW_LOAD));
      }
      SendMore(folder, blocked);
      Record(folder, Dialogs(blocked));
    }

    method RequestPinnedDialogs(folder: Key)
      requires Valid()
      modifies this
      ensures Valid() && state == Do(old(state), folder, Pinned)
    {
      SendPinned(folder);
      Record(folder, Pinned);
    }

    /** What a list reply does to the load; says whether its end is announced. */
    method TakeList(folder: Key, load: LoadState, result: ListResult) returns (notify: bool)
      requires DialogsLoadState(folder) == Some(load)
      modifies this`dialogsLoadState, this`foldersLoadState
      ensures DialogsLoadState(folder) == ListLoad(load, result)
      ensures notify <==> DialogsLoadState(folder) == None
      ensures forall other: Key | other != folder :: DialogsLoadState(other) == old(DialogsLoadState(other))
    {
      notify := false;
      match result {
        case Full =>
          SetState(folder, Some(load.(listReceived := true)));
          notify := DialogsLoadFinish(folder);
        case Slice(Some(offset)) =>
          SetState(folder, Some(load.(offset := offset, requestId := 0)));
        case Slice(None) =>
          SetState(folder, Some(load.(listReceived := true)));
          notify := DialogsLoadFinish(folder);
        case NotModified =>
        case Failed =>
          SetState(folder, Some(load.(requestId := 0)));
      }
    }

    /** A list reply: what arrives settles where the load stands; `notify` says whether its end is announced. */
    method ListReplied(folder: Key, id: nat, result: ListResult) returns (notify: bool)
      requires Valid() && id in FolderOf(state, folder).lists
      modifies this
      ensures Safe(FolderOf(old(state), folder), ListGot(id, result))
      ensures Valid() && state == Do(old(state), folder, ListGot(id, result))
      ensures FolderOf(state, folder).announced == FolderOf(old(state), folder).announced + if notify then 1 else 0
    {
      assert Invariant(FolderOf(state, folder), state.next);
      ListReplyLoad(FolderOf(state, folder), id, result);
      notify := TakeList(folder, DialogsLoadState(folder).value, result);
      Record(folder, ListGot(id, result));
    }

    method PinnedReplied(folder: Key, id: nat) returns (notify: bool)
      requires Valid() && id in FolderOf(state, folder).pinned
      modifies this
      ensures Valid() && state == Do(old(state), folder, PinnedGot(id))
      ensures FolderOf(state, folder).announced == FolderOf(old(state), folder).announced + if notify then 1 else 0
    {
      assert Invariant(FolderOf(state, folder), state.next);
      notify := false;
      var load := DialogsLoadState(folder);
      if load.Some? {
        SetState(folder, Some(load.value.(pinnedRequestId := 0, pinnedReceived := true)));
        notify := DialogsLoadFinish(folder);
      }
      Record(folder, PinnedGot(id));
    }

    /** A reload of the pinned chats is sent unless one is on its way. */
    method ReloadPinnedDialogs(folder: Key)
      requires Valid()
      modifies this`pinnedDialogsReloads, this`nextRequest, this`state
      ensures Valid() && state == Do(old(state), folder, Reload)
    {
      if folder !in pinnedDialogsReloads {
        pinnedDialogsReloads := pinnedDialogsReloads + {folder};
        nextRequest := nextRequest + 1;
      }
      Record(folder, Reload);
    }

    method PinnedReloaded(folder: Key, id: nat)
      requires Valid() && id in FolderOf(state, folder).reloads
      modifies this`pinnedDialogsReloads, this`state
      ensures Valid() && state == Do(old(state), folder, ReloadGot(id))
    {
      pinnedDialogsReloads := pinnedDialogsReloads - {folder};
      Record(folder, ReloadGot(id));
    }
  }
}
