/** Sending albums: items upload one by one, may be cancelled meanwhile, and the album goes out when all are there. */
module Albums {
  import opened Util

  /** A part of an album: the task that prepares it, then its local message, then its uploaded media. */
  datatype Item = Item(task: nat, msg: Option<nat>, media: Option<nat>)

  datatype Album = Album(items: seq<Item>, price: int, sent: bool)

  datatype Kind = Ephemeral | Paid | Single | Multi

  /** What went to the server for an album: the message it stands for, and the media. */
  datatype Send = Send(kind: Kind, sample: nat, media: seq<nat>)

  /**
   * One group: its album while it is in the map of sending albums, and its local messages that can still be
   * cancelled; and, as history, the tasks still preparing, the messages still uploading, all messages it ever had,
   * whether a send has no reply yet, and everything sent.
   */
  datatype Group = Group(
    album: Option<Album>,
    sending: set<nat>,
    preparing: set<nat>,
    uploading: set<nat>,
    known: set<nat>,
    unanswered: bool,
    sends: seq<Send>)

  // ---------- the parts of an album ----------

  /** The first part of a message, or the number of parts. */
  function FindMsg(items: seq<Item>, m: nat, from: nat := 0): (k: nat)
    requires from <= |items|
    ensures from <= k <= |items|
    ensures k < |items| ==> items[k].msg == Some(m)
    ensures forall i | from <= i < k :: items[i].msg != Some(m)
    decreases |items| - from
  {
    if from == |items| || items[from].msg == Some(m) then from else FindMsg(items, m, from + 1)
  }

  function FindTask(items: seq<Item>, t: nat, from: nat := 0): (k: nat)
    requires from <= |items|
    ensures from <= k <= |items|
    ensures k < |items| ==> items[k].task == t
    ensures forall i | from <= i < k :: items[i].task != t
    decreases |items| - from
  {
    if from == |items| || items[from].task == t then from else FindTask(items, t, from + 1)
  }

  function Fill(items: seq<Item>, m: nat, media: nat): seq<Item> {
    var k := FindMsg(items, m);
    if k < |items| then items[k := items[k].(media := Some(media))] else items
  }

  function Without(items: seq<Item>, k: nat): seq<Item> {
    if k < |items| then items[..k] + items[k + 1..] else items
  }

  predicate Complete(items: seq<Item>) {
    forall i | 0 <= i < |items| :: items[i].media.Some?
  }

  function Media(items: seq<Item>): (media: seq<nat>)
    requires Complete(items)
    ensures |media| == |items|
  {
    seq(|items|, i requires 0 <= i < |items| => items[i].media.value)
  }

  predicate Alive(item: Item, alive: set<nat>) {
    item.msg.Some? && item.msg.value in alive
  }

  /** The message of the first part that still has one. */
  function Sample(items: seq<Item>, alive: set<nat>): Option<nat> {
    if |items| == 0 then None
    else if Alive(items[0], alive) then items[0].msg
    else Sample(items[1..], alive)
  }

  function AliveMedia(items: seq<Item>, alive: set<nat>): seq<nat>
    requires Complete(items)
  {
    if |items| == 0 then []
    else AliveMedia(items[..|items| - 1], alive) + (if Alive(Last(items), alive) then [Last(items).media.value] else [])
  }

  // ---------- the steps of one group ----------

  /**
   * The check after every change: what becomes of the album in the map, and what goes to the server; `ephemeral` says
   * whether the message it replies to is ephemeral.
   */
  function Outcome(a: Album, alive: set<nat>, ephemeral: bool): (Option<Album>, Option<Send>) {
    if a.sent then (Some(a), None)
    else if a.items == [] then (None, None)
    else if !Complete(a.items) then (Some(a), None)
    else
      match Sample(a.items, alive)
      case None => (None, None)
      case Some(sample) =>
        if ephemeral then (None, Some(Send(Ephemeral, sample, AliveMedia(a.items, alive))))
        else if a.price > 0 then (Some(a.(sent := true)), Some(Send(Paid, sample, Media(a.items))))
        else if |a.items| < 2 then (None, Some(Send(Single, sample, Media(a.items))))
        else (Some(a.(sent := true)), Some(Send(Multi, sample, Media(a.items))))
  }

  function SendIfReady(x: Group, ephemeral: bool): Group
    requires x.album.Some?
  {
    var (album, send) := Outcome(x.album.value, x.sending, ephemeral);
    x.(album := album, sends := if send.Some? then x.sends + [send.value] else x.sends,
       unanswered := x.unanswered || (send.Some? && album.Some?))
  }

  function WithItems(x: Group, items: seq<Item>): Group
    requires x.album.Some?
  {
    x.(album := Some(x.album.value.(items := items)))
  }

  function NewItems(tasks: seq<nat>): (items: seq<Item>)
    ensures |items| == |tasks|
  {
    seq(|tasks|, i requires 0 <= i < |tasks| => Item(tasks[i], None, None))
  }

  function Create(tasks: seq<nat>, price: int): Group {
    Group(Some(Album(NewItems(tasks), price, false)), {}, set t | t in tasks, {}, {}, false, [])
  }

  /**
   * The events of an album: the local message of a part appears, or its file cannot be prepared; its upload ends; its
   * message is destroyed while sending, or is otherwise gone (sent, or no longer loaded); a send is answered.
   */
  datatype Action =
    | Prepared(task: nat, msg: nat)
    | Failed(task: nat)
    | Uploaded(msg: nat, media: nat, ephemeral: bool)
    | Cancelled(msg: nat, ephemeral: bool)
    | Gone(msg: nat)
    | Answered(ok: bool)

  /** What the surrounding code guarantees: one outcome per task and per upload, and only of messages that exist. */
  predicate Possible(x: Group, a: Action) {
    match a
    case Prepared(t, m) => t in x.preparing && m !in x.known
    case Failed(t) => t in x.preparing
    case Uploaded(m, _, _) => m in x.uploading
    case Cancelled(m, _) => m in x.sending
    case Gone(m) => m in x.sending
    case Answered(_) => x.unanswered
  }

  /** The places where the program asserts what it relies on: the album is there, with the part, in the right state. */
  predicate Asserted(x: Group, a: Action) {
    match a
    case Prepared(t, _) => x.album.Some? && FindTask(x.album.value.items, t) < |x.album.value.items|
    case Failed(t) => x.album.Some? && FindTask(x.album.value.items, t) < |x.album.value.items|
    case Uploaded(m, _, _) =>
      && x.album.Some?
      && var k := FindMsg(x.album.value.items, m);
         k < |x.album.value.items| && x.album.value.items[k].media == None
    case Cancelled(m, _) => x.album.Some? ==> FindMsg(x.album.value.items, m) < |x.album.value.items|
    case _ => true
  }

  function Messages(items: seq<Item>): set<nat> {
    set item | item in items && item.msg.Some? :: item.msg.value
  }

  function Step(x: Group, a: Action): Group
    requires Asserted(x, a)
  {
    match a
    case Prepared(t, m) =>
      var items := x.album.value.items;
      var k := FindTask(items, t);
      WithItems(x, items[k := items[k].(msg := Some(m))])
        .(preparing := x.preparing - {t}, uploading := x.uploading + {m}, sending := x.sending + {m},
          known := x.known + {m})
    case Failed(t) =>
      var items := x.album.value.items;
      WithItems(x, Without(items, FindTask(items, t))).(preparing := x.preparing - {t})
    case Uploaded(m, media, ephemeral) =>
      SendIfReady(WithItems(x, Fill(x.album.value.items, m, media)).(uploading := x.uploading - {m}), ephemeral)
    case Cancelled(m, ephemeral) =>
      var u := x.(sending := x.sending - {m}, uploading := x.uploading - {m});
      if x.album == None then u
      else SendIfReady(WithItems(u, Without(x.album.value.items, FindMsg(x.album.value.items, m))), ephemeral)
    case Gone(m) =>
      x.(sending := x.sending - {m}, uploading := x.uploading - {m})
    case Answered(ok) =>
      var u := x.(unanswered := false);
      if x.album == None || (x.album.value.price > 0 && !ok) then u
      else if x.album.value.price > 0 then
        var ms := Messages(x.album.value.items);
        u.(album := None, sending := x.sending - ms, uploading := x.uploading - ms)
      else u.(album := None)
  }

  // ---------- what every reachable group satisfies ----------

  /** No two parts share a task or a message. */
  ghost predicate Unique(items: seq<Item>) {
    forall i, j | 0 <= i < j < |items| ::
      items[i].task != items[j].task && (items[i].msg == items[j].msg ==> items[i].msg == None)
  }

  ghost predicate HasMsg(items: seq<Item>, m: nat) {
    exists i | 0 <= i < |items| :: items[i].msg == Some(m)
  }

  ghost predicate AwaitsUpload(items: seq<Item>, m: nat) {
    exists i | 0 <= i < |items| :: items[i].msg == Some(m) && items[i].media == None
  }

  ghost predicate AwaitsMessage(items: seq<Item>, t: nat) {
    exists i | 0 <= i < |items| :: items[i].task == t && items[i].msg == None && items[i].media == None
  }

  ghost predicate Tracks(x: Group, items: seq<Item>) {
    && Unique(items)
    && (forall i | 0 <= i < |items| && items[i].msg.Some? :: items[i].msg.value in x.known)
    && (forall m | m in x.sending :: HasMsg(items, m))
    && (forall m | m in x.uploading :: AwaitsUpload(items, m))
    && (forall t | t in x.preparing :: AwaitsMessage(items, t))
  }

  ghost predicate Invariant(x: Group) {
    && x.uploading <= x.sending <= x.known
    && |x.sends| <= 1 && (x.unanswered ==> x.sends != [])
    && match x.album
       case None => x.uploading == {} && x.preparing == {}
       case Some(a) =>
         && Tracks(x, a.items)
         && (a.sent <==> x.sends != [])
         && (a.sent ==> Complete(a.items))
  }

  lemma CreateInvariant(tasks: seq<nat>, price: int)
    requires forall i, j | 0 <= i < j < |tasks| :: tasks[i] != tasks[j]
    ensures Invariant(Create(tasks, price))
  {
    var items := NewItems(tasks);
    forall t | t in tasks
      ensures AwaitsMessage(items, t)
    {
      var i :| 0 <= i < |tasks| && tasks[i] == t;
      assert items[i].task == t;
    }
  }

  /** While something is being prepared or uploaded the album is in the map, and the program's assertions hold. */
  lemma AssertionsHold(x: Group, a: Action)
    requires Invariant(x) && Possible(x, a)
    ensures Asserted(x, a)
  {
  }

  // ---------- the steps keep the invariant ----------

  lemma CompleteIsIdle(x: Group, items: seq<Item>)
    requires Tracks(x, items) && Complete(items)
    ensures x.uploading == {} && x.preparing == {}
  {
    assert forall m | m in x.uploading :: AwaitsUpload(items, m);
    assert forall t | t in x.preparing :: AwaitsMessage(items, t);
  }

  lemma SendIfReadyKeeps(x: Group, ephemeral: bool)
    requires Invariant(x) && x.album.Some?
    ensures Invariant(SendIfReady(x, ephemeral))
  {
    var a := x.album.value;
    if !a.sent && Complete(a.items) {
      CompleteIsIdle(x, a.items);
    }
  }

  /** A part is changed in one place: it gets its message or its media. */
  lemma ChangedTracks(x: Group, items: seq<Item>, k: nat, item: Item, y: Group)
    requires Tracks(x, items) && k < |items| && item.task == items[k].task
    requires items[k].msg == None || item.msg == items[k].msg
    requires item.msg.Some? && items[k].msg == None ==> item.msg.value !in x.known
    requires y.known == x.known + (if item.msg.Some? then {item.msg.value} else {})
    requires forall m | m in y.sending :: m in x.sending || item.msg == Some(m)
    requires forall m | m in y.uploading ::
               (m in x.uploading && items[k].msg != Some(m)) || (item.msg == Some(m) && item.media == None)
    requires forall t | t in y.preparing :: t in x.preparing && t != item.task
    ensures Tracks(y, items[k := item])
  {
    var items' := items[k := item];
    forall m | m in y.sending
      ensures HasMsg(items', m)
    {
      if item.msg == Some(m) {
        assert items'[k].msg == Some(m);
      } else {
        var i :| 0 <= i < |items| && items[i].msg == Some(m);
        assert items'[i] == items[i];
      }
    }
    forall m | m in y.uploading
      ensures AwaitsUpload(items', m)
    {
      if item.msg == Some(m) && item.media == None {
        assert items'[k].msg == Some(m);
      } else {
        var i :| 0 <= i < |items| && items[i].msg == Some(m) && items[i].media == None;
        assert items'[i] == items[i];
      }
    }
    forall t | t in y.preparing
      ensures AwaitsMessage(items', t)
    {
      var i :| 0 <= i < |items| && items[i].task == t && items[i].msg == None && items[i].media == None;
      assert items'[i] == items[i];
    }
  }

  /** Where a part is after another one is taken out. */
  function Place(i: nat, k: nat): nat
    requires i != k
  {
    if i < k then i else i - 1
  }

  lemma WithoutHas(items: seq<Item>, k: nat, i: nat)
    requires k < |items| && i < |items| && i != k
    ensures Place(i, k) < |Without(items, k)| && Without(items, k)[Place(i, k)] == items[i]
  {
  }

  lemma UniqueWithout(items: seq<Item>, k: nat)
    requires k < |items| && Unique(items)
    ensures Unique(Without(items, k))
    ensures forall j | 0 <= j < |Without(items, k)| :: Without(items, k)[j] in items
  {
  }

  /** A part is taken out, together with what waits for it. */
  lemma TakenOutTracks(x: Group, items: seq<Item>, k: nat, y: Group)
    requires Tracks(x, items) && k < |items| && y.known == x.known
    requires y.sending <= x.sending && y.uploading <= x.uploading && y.preparing <= x.preparing
    requires items[k].task !in y.preparing
    requires items[k].msg.Some? ==> items[k].msg.value !in y.sending && items[k].msg.value !in y.uploading
    ensures Tracks(y, Without(items, k))
  {
    var items' := Without(items, k);
    UniqueWithout(items, k);
    assert forall item | item in items && item.msg.Some? :: item.msg.value in x.known;
    forall m | m in y.sending
      ensures HasMsg(items', m)
    {
      var i :| 0 <= i < |items| && items[i].msg == Some(m);
      WithoutHas(items, k, i);
    }
    forall m | m in y.uploading
      ensures AwaitsUpload(items', m)
    {
      var i :| 0 <= i < |items| && items[i].msg == Some(m) && items[i].media == None;
      WithoutHas(items, k, i);
    }
    forall t | t in y.preparing
      ensures AwaitsMessage(items', t)
    {
      var i :| 0 <= i < |items| && items[i].task == t && items[i].msg == None && items[i].media == None;
      WithoutHas(items, k, i);
    }
  }

  lemma PreparedKeeps(x: Group, t: nat, m: nat)
    requires Invariant(x) && Possible(x, Prepared(t, m)) && Asserted(x, Prepared(t, m))
    ensures Invariant(Step(x, Prepared(t, m)))
  {
    var items := x.album.value.items;
    var k := FindTask(items, t);
    assert AwaitsMessage(items, t);
    ChangedTracks(x, items, k, items[k].(msg := Some(m)), Step(x, Prepared(t, m)));
  }

  lemma FailedKeeps(x: Group, t: nat)
    requires Invariant(x) && Possible(x, Failed(t)) && Asserted(x, Failed(t))
    ensures Invariant(Step(x, Failed(t)))
  {
    var items := x.album.value.items;
    assert AwaitsMessage(items, t);
    TakenOutTracks(x, items, FindTask(items, t), Step(x, Failed(t)));
  }

  lemma UploadedKeeps(x: Group, m: nat, media: nat, ephemeral: bool)
    requires Invariant(x) && Possible(x, Uploaded(m, media, ephemeral)) && Asserted(x, Uploaded(m, media, ephemeral))
    ensures Invariant(Step(x, Uploaded(m, media, ephemeral)))
  {
    var items := x.album.value.items;
    var k := FindMsg(items, m);
    var y := WithItems(x, Fill(items, m, media)).(uploading := x.uploading - {m});
    assert AwaitsUpload(items, m);
    assert items[k].task !in x.preparing;
    ChangedTracks(x, items, k, items[k].(media := Some(media)), y);
    SendIfReadyKeeps(y, ephemeral);
  }

  lemma CancelledKeeps(x: Group, m: nat, ephemeral: bool)
    requires Invariant(x) && Possible(x, Cancelled(m, ephemeral)) && Asserted(x, Cancelled(m, ephemeral))
    ensures Invariant(Step(x, Cancelled(m, ephemeral)))
  {
    if x.album.Some? {
      var items := x.album.value.items;
      var k := FindMsg(items, m);
      var y := WithItems(x, Without(items, k)).(sending := x.sending - {m}, uploading := x.uploading - {m});
      assert items[k].task !in x.preparing;
      TakenOutTracks(x, items, k, y);
      SendIfReadyKeeps(y, ephemeral);
    }
  }

  lemma StepKeeps(x: Group, a: Action)
    requires Invariant(x) && Possible(x, a) && Asserted(x, a)
    ensures Invariant(Step(x, a))
  {
    match a {
      case Prepared(t, m) => PreparedKeeps(x, t, m);
      case Failed(t) => FailedKeeps(x, t);
      case Uploaded(m, media, ephemeral) => UploadedKeeps(x, m, media, ephemeral);
      case Cancelled(m, ephemeral) => CancelledKeeps(x, m, ephemeral);
      case Gone(m) =>
      case Answered(ok) =>
        if x.album.Some? {
          CompleteIsIdle(x, x.album.value.items);
        }
    }
  }

  // ---------- whole runs ----------

  ghost predicate Next(x: Group, y: Group) {
    exists a :: Possible(x, a) && Asserted(x, a) && y == Step(x, a)
  }

  /** The life of one album, with its events in any order. */
  ghost predicate IsRun(xs: seq<Group>, tasks: seq<nat>, price: int) {
    && |xs| > 0 && xs[0] == Create(tasks, price)
    && (forall i, j | 0 <= i < j < |tasks| :: tasks[i] != tasks[j])
    && (forall i | 0 <= i < |xs| - 1 :: Next(xs[i], xs[i + 1]))
  }

  lemma {:induction false} Reachable(xs: seq<Group>, tasks: seq<nat>, price: int, i: nat)
    requires IsRun(xs, tasks, price) && i < |xs|
    ensures Invariant(xs[i])
  {
    if i == 0 {
      CreateInvariant(tasks, price);
    } else {
      Reachable(xs, tasks, price, i - 1);
      assert Next(xs[i - 1], xs[i - 1 + 1]);
      var a :| Possible(xs[i - 1], a) && Asserted(xs[i - 1], a) && xs[i] == Step(xs[i - 1], a);
      StepKeeps(xs[i - 1], a);
    }
  }

  /** No assertion of the program can fail, whatever happens next to a reachable album; and it is sent at most once. */
  lemma NeverAsserts(xs: seq<Group>, tasks: seq<nat>, price: int, i: nat, a: Action)
    requires IsRun(xs, tasks, price) && i < |xs| && Possible(xs[i], a)
    ensures Asserted(xs[i], a) && |Step(xs[i], a).sends| <= 1
  {
    Reachable(xs, tasks, price, i);
    AssertionsHold(xs[i], a);
    StepKeeps(xs[i], a);
  }

  /** The parts when an upload or a cancel is through. */
  function PartsAfter(x: Group, a: Action): seq<Item>
    requires Asserted(x, a) && (a.Uploaded? || (a.Cancelled? && x.album.Some?))
  {
    match a
    case Uploaded(m, media, _) => Fill(x.album.value.items, m, media)
    case Cancelled(m, _) => Without(x.album.value.items, FindMsg(x.album.value.items, m))
  }

  /** An album goes to an ephemeral message part by part, for a price as paid media, and else as one message or many. */
  predicate KindIs(kind: Kind, ephemeral: bool, price: int, parts: nat) {
    match kind
    case Ephemeral => ephemeral
    case Paid => !ephemeral && price > 0
    case Single => !ephemeral && price <= 0 && parts == 1
    case Multi => !ephemeral && price <= 0 && parts >= 2
  }

  /** What a check sends is made of all parts of the album, which are all there, and was not sent before. */
  lemma OutcomeSends(a: Album, alive: set<nat>, ephemeral: bool)
    requires Outcome(a, alive, ephemeral).1.Some?
    ensures var send := Outcome(a, alive, ephemeral).1.value;
            && !a.sent && a.items != [] && Complete(a.items)
            && (send.kind == Ephemeral <==> ephemeral)
            && send.media == (if ephemeral then AliveMedia(a.items, alive) else Media(a.items))
            && Some(send.sample) == Sample(a.items, alive)
            && KindIs(send.kind, ephemeral, a.price, |a.items|)
            && (Outcome(a, alive, ephemeral).0 == None <==> send.kind == Ephemeral || send.kind == Single)
  {
  }

  /** Only an upload or a cancel sends something, namely what the check of the changed album says. */
  lemma SendsByCheck(x: Group, a: Action)
    requires Invariant(x) && Possible(x, a) && Asserted(x, a) && Step(x, a).sends != x.sends
    ensures (a.Uploaded? || a.Cancelled?) && x.album.Some?
    ensures var r := Outcome(x.album.value.(items := PartsAfter(x, a)), Step(x, a).sending, a.ephemeral);
            r.1.Some? && Step(x, a).sends == x.sends + [r.1.value]
  {
  }

  lemma StepPrice(x: Group, a: Action)
    requires Asserted(x, a)
    ensures Step(x, a).album.Some? ==> x.album.Some? && Step(x, a).album.value.price == x.album.value.price
  {
  }

  lemma NextPrice(x: Group, y: Group)
    requires Next(x, y)
    ensures y.album.Some? ==> x.album.Some? && y.album.value.price == x.album.value.price
  {
    var a :| Possible(x, a) && Asserted(x, a) && y == Step(x, a);
    StepPrice(x, a);
  }

  lemma {:induction false} PriceStays(xs: seq<Group>, tasks: seq<nat>, price: int, i: nat)
    requires IsRun(xs, tasks, price) && i < |xs|
    ensures xs[i].album.Some? ==> xs[i].album.value.price == price
  {
    if i > 0 {
      PriceStays(xs, tasks, price, i - 1);
      assert Next(xs[i - 1], xs[i - 1 + 1]);
      NextPrice(xs[i - 1], xs[i]);
    }
  }

  /** The message that stands for an album is that of its first part still shown; none if no part is. */
  lemma {:induction false} SampleIsFirst(items: seq<Item>, alive: set<nat>)
    ensures match Sample(items, alive)
            case None => forall k | 0 <= k < |items| :: items[k].msg == None || items[k].msg.value !in alive
            case Some(m) => exists k | 0 <= k < |items| ::
              && items[k].msg == Some(m) && m in alive
              && forall j | 0 <= j < k :: items[j].msg == None || items[j].msg.value !in alive
  {
    if |items| > 0 && !Alive(items[0], alive) {
      SampleIsFirst(items[1..], alive);
      if Sample(items, alive).Some? {
        var m := Sample(items, alive).value;
        var k :| 0 <= k < |items| - 1 && items[1..][k].msg == Some(m) && m in alive
              && forall j | 0 <= j < k :: items[1..][j].msg == None || items[1..][j].msg.value !in alive;
        assert items[k + 1].msg == Some(m);
        assert forall j | 0 < j < k + 1 :: items[j] == items[1..][j - 1];
      } else {
        assert forall j | 0 < j < |items| :: items[j] == items[1..][j - 1];
      }
    }
  }

  /** Of the parts that go to an ephemeral message, the media of those still shown, in order. */
  lemma {:induction false} AliveMediaIs(items: seq<Item>, alive: set<nat>)
    requires Complete(items)
    ensures var shown := Filter(items, (part: Item) => part.msg.Some? && part.msg.value in alive);
            Complete(shown) && AliveMedia(items, alive) == Media(shown)
  {
    var keep := (part: Item) => part.msg.Some? && part.msg.value in alive;
    if |items| > 0 {
      AliveMediaIs(items[..|items| - 1], alive);
      assert items == items[..|items| - 1] + [Last(items)];
      FilterPush(items[..|items| - 1], Last(items), keep);
      assert Complete(Filter(items, keep));
    }
  }

  /**
   * In every run, what goes out is, in order, the media of all parts there are; to an ephemeral message, of those still
   * shown. It goes out because of an upload or a cancel, and nothing went out before; and it goes out as paid media
   * exactly for a price.
   */
  lemma SendsAllParts(xs: seq<Group>, tasks: seq<nat>, price: int, i: nat, a: Action)
    requires IsRun(xs, tasks, price) && i < |xs| && Possible(xs[i], a) && Asserted(xs[i], a)
    requires Step(xs[i], a).sends != xs[i].sends
    ensures xs[i].sends == [] && |Step(xs[i], a).sends| == 1
    ensures a.Uploaded? || (a.Cancelled? && xs[i].album.Some?)
    ensures var parts, send, alive := PartsAfter(xs[i], a), Step(xs[i], a).sends[0], Step(xs[i], a).sending;
            && parts != [] && Complete(parts)
            && (send.kind == Ephemeral <==> a.ephemeral)
            && send.media == (if send.kind == Ephemeral then AliveMedia(parts, alive) else Media(parts))
            && Some(send.sample) == Sample(parts, alive)
            && KindIs(send.kind, a.ephemeral, price, |parts|)
            && (Step(xs[i], a).album == None <==> send.kind == Ephemeral || send.kind == Single)
  {
    var x := xs[i];
    Reachable(xs, tasks, price, i);
    PriceStays(xs, tasks, price, i);
    SendsByCheck(x, a);
    OutcomeSends(x.album.value.(items := PartsAfter(x, a)), Step(x, a).sending, a.ephemeral);
  }

  /** What went out as one request is answered; what went part by part or as one message is not waited for. */
  lemma SentAwaitsAnswer(xs: seq<Group>, tasks: seq<nat>, price: int, i: nat, a: Action)
    requires IsRun(xs, tasks, price) && i < |xs| && Possible(xs[i], a) && Asserted(xs[i], a)
    requires Step(xs[i], a).sends != xs[i].sends
    ensures |Step(xs[i], a).sends| == 1
    ensures var y := Step(xs[i], a);
            y.unanswered <==> y.sends[0].kind == Paid || y.sends[0].kind == Multi
  {
    var x := xs[i];
    Reachable(xs, tasks, price, i);
    SendsByCheck(x, a);
    OutcomeSends(x.album.value.(items := PartsAfter(x, a)), Step(x, a).sending, a.ephemeral);
  }

  /**
   * An answer ends the album, but for paid media that was refused; with paid media that was accepted its messages are
   * no longer being sent.
   */
  lemma AnswerSettles(x: Group, ok: bool)
    requires Invariant(x) && x.unanswered
    ensures var y := Step(x, Answered(ok));
            var paid := x.album.Some? && x.album.value.price > 0;
            && !y.unanswered && y.sends == x.sends && y.preparing == x.preparing && y.known == x.known
            && y.album == (if paid && !ok then x.album else None)
            && forall m :: m in y.sending <==>
                 m in x.sending && !(paid && ok && HasMsg(x.album.value.items, m))
  {
    var y := Step(x, Answered(ok));
    if x.album.Some? {
      var items := x.album.value.items;
      forall m
        ensures m in Messages(items) <==> HasMsg(items, m)
      {
        if HasMsg(items, m) {
          var k :| 0 <= k < |items| && items[k].msg == Some(m);
          assert items[k] in items;
        }
      }
    }
  }

  /** A message that is gone otherwise leaves the album as it is. */
  lemma GoneLeavesAlbum(x: Group, m: nat)
    ensures Step(x, Gone(m)) == x.(sending := x.sending - {m}, uploading := x.uploading - {m})
    ensures m !in Step(x, Gone(m)).sending && m !in Step(x, Gone(m)).uploading
  {
  }

  /** An album that is over without having been sent: gone from the map, or without parts. */
  ghost predicate Over(x: Group) {
    x.sends == [] && (x.album == None || x.album.value.items == [])
  }

  lemma OverStays(x: Group, a: Action)
    requires Invariant(x) && Possible(x, a) && Asserted(x, a) && Over(x)
    ensures Over(Step(x, a))
  {
  }

  lemma {:induction false} OverIsNeverSent(xs: seq<Group>, tasks: seq<nat>, price: int, i: nat, j: nat)
    requires IsRun(xs, tasks, price) && i <= j < |xs| && Over(xs[i])
    ensures Over(xs[j])
    decreases j
  {
    if i < j {
      OverIsNeverSent(xs, tasks, price, i, j - 1);
      Reachable(xs, tasks, price, j - 1);
      assert Next(xs[j - 1], xs[j - 1 + 1]);
      var a :| Possible(xs[j - 1], a) && Asserted(xs[j - 1], a) && xs[j] == Step(xs[j - 1], a);
      OverStays(xs[j - 1], a);
    }
  }

  // ---------- when an album is left behind ----------

  /** An unsent album in the map still waits for something: no part, or a part without media. */
  ghost predicate Waiting(x: Group) {
    x.album.Some? && !x.album.value.sent ==> x.album.value.items == [] || !Complete(x.album.value.items)
  }

  /** The last part still missing fails to be prepared, while others are there. */
  ghost predicate FailsLast(x: Group, a: Action) {
    && a.Failed? && x.album.Some? && |x.album.value.items| > 1
    && forall i | 0 <= i < |x.album.value.items| && x.album.value.items[i].task != a.task ::
         x.album.value.items[i].media.Some?
  }

  lemma FailedLeaves(x: Group, t: nat)
    requires Invariant(x) && Possible(x, Failed(t)) && Asserted(x, Failed(t))
    ensures Waiting(Step(x, Failed(t))) <==> !FailsLast(x, Failed(t))
  {
    var items := x.album.value.items;
    var k := FindTask(items, t);
    var rest := Without(items, k);
    assert AwaitsMessage(items, t);
    if !FailsLast(x, Failed(t)) && |items| > 1 {
      var i :| 0 <= i < |items| && items[i].task != t && items[i].media == None;
      WithoutHas(items, k, i);
    }
    if Complete(rest) {
      forall i | 0 <= i < |items| && items[i].task != t
        ensures items[i].media.Some?
      {
        WithoutHas(items, k, i);
      }
    }
  }

  /** A complete album stays unsent in exactly one case: nobody looks at it when its last missing part fails. */
  lemma LeftBehindIff(x: Group, a: Action)
    requires Invariant(x) && Waiting(x) && Possible(x, a) && Asserted(x, a)
    ensures Waiting(Step(x, a)) <==> !FailsLast(x, a)
  {
    match a {
      case Failed(t) => FailedLeaves(x, t);
      case Prepared(t, m) =>
        assert AwaitsMessage(x.album.value.items, t);
        var k := FindTask(x.album.value.items, t);
        assert Step(x, a).album.value.items[k].media == None;
      case _ =>
    }
  }

  /** A step by which no last missing file fails. */
  ghost predicate NextUnfailed(x: Group, y: Group) {
    exists a :: Possible(x, a) && Asserted(x, a) && !FailsLast(x, a) && y == Step(x, a)
  }

  /** As long as that does not happen, an album in the map is never complete and unsent, in any run. */
  lemma {:induction false} NeverLeftBehind(xs: seq<Group>, tasks: seq<nat>, price: int, i: nat)
    requires IsRun(xs, tasks, price) && i < |xs|
    requires forall j | 0 <= j < |xs| - 1 :: NextUnfailed(xs[j], xs[j + 1])
    ensures Waiting(xs[i])
  {
    if i == 0 {
      if tasks != [] {
        assert xs[0].album.value.items[0].media == None;
      }
    } else {
      NeverLeftBehind(xs, tasks, price, i - 1);
      Reachable(xs, tasks, price, i - 1);
      assert NextUnfailed(xs[i - 1], xs[i - 1 + 1]);
      var x := xs[i - 1];
      var a :| Possible(x, a) && Asserted(x, a) && !FailsLast(x, a) && xs[i] == Step(x, a);
      LeftBehindIff(x, a);
    }
  }

  lemma LeftBehindStart() returns (x1: Group, x2: Group)
    ensures Next(Create([1, 2], 0), x1) && Next(x1, x2)
    ensures x2 == Group(Some(Album([Item(1, Some(10), Some(100)), Item(2, None, None)], 0, false)),
                        {10}, {2}, {}, {10}, false, [])
  {
    var x0 := Create([1, 2], 0);
    assert x0.album.value.items == [Item(1, None, None), Item(2, None, None)];
    assert x0.preparing == {1, 2};
    x1 := Step(x0, Prepared(1, 10));
    assert x1.album.value.items == [Item(1, Some(10), None), Item(2, None, None)];
    assert x1.preparing == {2} && x1.uploading == {10} && x1.sending == {10} && x1.known == {10};
    x2 := Step(x1, Uploaded(10, 100, false));
    assert Fill(x1.album.value.items, 10, 100) == [Item(1, Some(10), Some(100)), Item(2, None, None)];
    assert Fill(x1.album.value.items, 10, 100)[1].media == None;
    assert x2.uploading == {};
  }

  lemma LeftBehindEnd(x: Group) returns (y: Group)
    requires x == Group(Some(Album([Item(1, Some(10), Some(100)), Item(2, None, None)], 0, false)),
                        {10}, {2}, {}, {10}, false, [])
    ensures Next(x, y) && !Waiting(y) && y.preparing == {} && y.uploading == {} && y.sends == []
  {
    assert FindTask(x.album.value.items, 2, 1) == 1;
    y := Step(x, Failed(2));
    assert y.album.value.items == [Item(1, Some(10), Some(100))];
  }

  /** It does happen: two files, the first is uploaded before the second turns out to be unusable. */
  lemma LeftBehind() returns (xs: seq<Group>)
    ensures IsRun(xs, [1, 2], 0) && !Waiting(Last(xs))
    ensures Last(xs).preparing == {} && Last(xs).uploading == {} && Last(xs).sends == []
  {
    var x1, x2 := LeftBehindStart();
    var x3 := LeftBehindEnd(x2);
    xs := [Create([1, 2], 0), x1, x2, x3];
  }

  // ---------- the client ----------

  function Updated(albums: map<nat, Album>, g: nat, album: Option<Album>): map<nat, Album> {
    match album
    case None => albums - {g}
    case Some(a) => albums[g := a]
  }

  ghost predicate AllInvariant(groups: map<nat, Group>) {
    forall g | g in groups :: Invariant(groups[g])
  }

  /** The map of sending albums holds the albums of the groups that have one. */
  ghost predicate Matches(albums: map<nat, Album>, groups: map<nat, Group>) {
    && (forall g :: g in albums <==> g in groups && groups[g].album.Some?)
    && (forall g | g in albums :: groups[g].album == Some(albums[g]))
  }

  lemma GroupSteps(albums: map<nat, Album>, groups: map<nat, Group>, g: nat, a: Action)
    requires AllInvariant(groups) && Matches(albums, groups) && g in groups && Possible(groups[g], a)
    ensures Asserted(groups[g], a)
    ensures var x := Step(groups[g], a);
            AllInvariant(groups[g := x]) && Matches(Updated(albums, g, x.album), groups[g := x])
  {
    var x := groups[g];
    AssertionsHold(x, a);
    StepKeeps(x, a);
    var y := Step(x, a);
    MatchesUpdated(albums, groups, g, y);
  }

  lemma MatchesUpdated(albums: map<nat, Album>, groups: map<nat, Group>, g: nat, y: Group)
    requires Matches(albums, groups) && g in groups
    ensures Matches(Updated(albums, g, y.album), groups[g := y])
  {
  }

  lemma CancelledOutcome(x: Group, m: nat, ephemeral: bool)
    requires Asserted(x, Cancelled(m, ephemeral))
    ensures var y := Step(x, Cancelled(m, ephemeral));
            if x.album == None then y.album == None && y.sends == x.sends
            else
              var a := x.album.value;
              var r := Outcome(a.(items := Without(a.items, FindMsg(a.items, m))), x.sending - {m}, ephemeral);
              y.album == r.0 && y.sends == x.sends + (if r.1.Some? then [r.1.value] else [])
  {
  }

  lemma UpdatedTwice(albums: map<nat, Album>, g: nat, a: Album, album: Option<Album>)
    ensures Updated(albums[g := a], g, album) == Updated(albums, g, album)
  {
  }

  class Client {
    var sendingAlbums: map<nat, Album>
    ghost var groups: map<nat, Group>

    ghost predicate Valid()
      reads this
    {
      AllInvariant(groups) && Matches(sendingAlbums, groups)
    }

    constructor ()
      ensures Valid() && groups == map[]
    {
      sendingAlbums, groups := map[], map[];
    }

    method SendFiles(g: nat, tasks: seq<nat>, price: int)
      requires Valid() && g !in groups && forall i, j | 0 <= i < j < |tasks| :: tasks[i] != tasks[j]
      modifies this
      ensures Valid() && groups == old(groups)[g := Create(tasks, price)]
    {
      var items: seq<Item> := [];
      for i := 0 to |tasks|
        invariant items == NewItems(tasks[..i])
      {
        items := items + [Item(tasks[i], None, None)];
      }
      assert tasks[..|tasks|] == tasks;
      sendingAlbums := sendingAlbums[g := Album(items, price, false)];
      CreateInvariant(tasks, price);
      groups := groups[g := Create(tasks, price)];
    }

    /** The check after every change of an album; the result says what goes to the server, if anything. */
    method SendAlbumIfReady(g: nat, alive: set<nat>, ephemeral: bool) returns (send: Option<Send>)
      requires g in sendingAlbums
      modifies this`sendingAlbums
      ensures send == Outcome(old(sendingAlbums)[g], alive, ephemeral).1
      ensures sendingAlbums == Updated(old(sendingAlbums), g, Outcome(old(sendingAlbums)[g], alive, ephemeral).0)
    {
      var album := sendingAlbums[g];
      assert sendingAlbums[g := album] == sendingAlbums;
      if album.sent {
        return None;
      }
      if album.items == [] {
        sendingAlbums := sendingAlbums - {g};
        return None;
      }
      var sample: Option<nat> := None;
      var medias: seq<nat> := [];
      for i := 0 to |album.items|
        invariant sendingAlbums == old(sendingAlbums)
        invariant Complete(album.items[..i]) && medias == Media(album.items[..i])
        invariant sample == Sample(album.items[..i], alive)
      {
        var item := album.items[i];
        if item.media == None {
          assert !Complete(album.items);
          return None;
        }
        if sample == None && item.msg.Some? && item.msg.value in alive {
          sample := item.msg;
        }
        MediaGrows(album.items, i);
        medias := medias + [item.media.value];
        SampleGrows(album.items, alive, i);
      }
      assert album.items[..|album.items|] == album.items;
      if sample == None {
        sendingAlbums := sendingAlbums - {g};
        return None;
      }
      if ephemeral {
        var parts := AliveParts(album.items, alive);
        sendingAlbums := sendingAlbums - {g};
        return Some(Send(Ephemeral, sample.value, parts));
      }
      if album.price > 0 {
        sendingAlbums := sendingAlbums[g := album.(sent := true)];
        return Some(Send(Paid, sample.value, medias));
      }
      if |medias| < 2 {
        sendingAlbums := sendingAlbums - {g};
        return Some(Send(Single, sample.value, medias));
      }
      sendingAlbums := sendingAlbums[g := album.(sent := true)];
      return Some(Send(Multi, sample.value, medias));
    }

    method SendAlbumWithUploaded(g: nat, m: nat, media: nat, alive: set<nat>, ephemeral: bool)
      returns (send: Option<Send>)
      requires Valid() && g in groups && Possible(groups[g], Uploaded(m, media, ephemeral))
      requires alive == groups[g].sending
      modifies this
      ensures Asserted(old(groups)[g], Uploaded(m, media, ephemeral))
      ensures Valid() && groups == old(groups)[g := Step(old(groups)[g], Uploaded(m, media, ephemeral))]
      ensures groups[g].sends == old(groups)[g].sends + (if send.Some? then [send.value] else [])
    {
      GroupSteps(sendingAlbums, groups, g, Uploaded(m, media, ephemeral));
      var album := sendingAlbums[g];
      var k := FindMsg(album.items, m);
      album := album.(items := album.items[k := album.items[k].(media := Some(media))]);
      sendingAlbums := sendingAlbums[g := album];
      send := SendAlbumIfReady(g, alive, ephemeral);
      UpdatedTwice(old(sendingAlbums), g, album, Outcome(album, alive, ephemeral).0);
      groups := groups[g := Step(groups[g], Uploaded(m, media, ephemeral))];
    }

    method SendAlbumWithCancelled(g: nat, m: nat, alive: set<nat>, ephemeral: bool) returns (send: Option<Send>)
      requires Valid() && g in groups && Possible(groups[g], Cancelled(m, ephemeral))
      requires alive == groups[g].sending - {m}
      modifies this
      ensures Asserted(old(groups)[g], Cancelled(m, ephemeral))
      ensures Valid() && groups == old(groups)[g := Step(old(groups)[g], Cancelled(m, ephemeral))]
      ensures groups[g].sends == old(groups)[g].sends + (if send.Some? then [send.value] else [])
    {
      GroupSteps(sendingAlbums, groups, g, Cancelled(m, ephemeral));
      CancelledOutcome(groups[g], m, ephemeral);
      ghost var x := Step(groups[g], Cancelled(m, ephemeral));
      send := None;
      if g in sendingAlbums {
        var album := sendingAlbums[g];
        var k := FindMsg(album.items, m);
        album := album.(items := album.items[..k] + album.items[k + 1..]);
        sendingAlbums := sendingAlbums[g := album];
        send := SendAlbumIfReady(g, alive, ephemeral);
        UpdatedTwice(old(sendingAlbums), g, album, x.album);
      }
      assert sendingAlbums == Updated(old(sendingAlbums), g, x.album);
      groups := groups[g := x];
    }
  }

  method AliveParts(items: seq<Item>, alive: set<nat>) returns (parts: seq<nat>)
    requires Complete(items)
    ensures parts == AliveMedia(items, alive)
  {
    parts := [];
    for i := 0 to |items|
      invariant parts == AliveMedia(items[..i], alive)
    {
      assert items[..i + 1][..i] == items[..i];
      if items[i].msg.Some? && items[i].msg.value in alive {
        parts := parts + [items[i].media.value];
      }
    }
    assert items[..|items|] == items;
  }

  lemma MediaGrows(items: seq<Item>, i: nat)
    requires i < |items| && Complete(items[..i]) && items[i].media.Some?
    ensures Complete(items[..i + 1]) && Media(items[..i + 1]) == Media(items[..i]) + [items[i].media.value]
  {
    assert items[..i + 1] == items[..i] + [items[i]];
  }

  lemma {:induction false} SampleGrows(items: seq<Item>, alive: set<nat>, i: nat)
    requires i < |items|
    ensures Sample(items[..i + 1], alive)
         == if Sample(items[..i], alive) == None && Alive(items[i], alive) then items[i].msg
            else Sample(items[..i], alive)
    decreases i
  {
    if i > 0 {
      SampleGrows(items[1..], alive, i - 1);
      assert items[1..][..i] == items[..i + 1][1..] && items[1..][..i - 1] == items[..i][1..];
    }
  }
}
