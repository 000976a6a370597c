/** Saving the user's edits to the sticker sets: the local part of the transaction, list by list and set by set. */
module StickerSets {
  import opened Util

  const CUSTOM_SET := 0xFFFF_FFFF_FFFF_FFFF
  const CLOUD_RECENT_SET := 0xFFFF_FFFF_FFFF_FFFC
  const CLOUD_RECENT_ATTACHED_SET := 0xFFFF_FFFF_FFFF_FFF9

  datatype StickersType = Stickers | Masks | Emoji

  datatype StickerSet = StickerSet(
    stickers: set<nat>,
    installed: bool,
    archived: bool,
    featured: bool,
    special: bool,
    masks: bool,
    emoji: bool,
    locked: int,
    installDate: nat)

  datatype Request = Uninstall(id: nat) | Install(id: nat) | ClearRecent(attached: bool)

  /** The stored sets, the stored order of one type, the recent stickers, and the requests sent so far. */
  datatype Pack = Pack(sets: map<nat, StickerSet>, order: seq<nat>, recent: seq<nat>, sent: seq<Request>)

  /** What the user asks for: the order of the sets of a type, and the sets to remove. */
  datatype Edit = Edit(localOrder: seq<nat>, localRemoved: seq<nat>, kind: StickersType, now: nat)

  function TypeOf(x: StickerSet): StickersType {
    if x.emoji then Emoji else if x.masks then Masks else Stickers
  }

  predicate IsCloud(id: nat) {
    id == CLOUD_RECENT_SET || id == CLOUD_RECENT_ATTACHED_SET
  }

  // ---------- the passes over the lists ----------

  function Without(recent: seq<nat>, stickers: set<nat>): seq<nat> {
    if |recent| == 0 then []
    else Without(recent[..|recent| - 1], stickers) + if Last(recent) in stickers then [] else [Last(recent)]
  }

  function RemoveFirst(order: seq<nat>, id: nat): seq<nat> {
    if |order| == 0 then [] else if order[0] == id then order[1..] else [order[0]] + RemoveFirst(order[1..], id)
  }

  /** A set that something else still holds on to. */
  predicate Held(x: StickerSet) {
    x.featured || x.special || x.emoji || x.locked > 0
  }

  function Disabled(x: StickerSet): StickerSet {
    x.(installed := false, archived := false, installDate := 0)
  }

  function RemoveOne(p: Pack, id: nat): Pack {
    if IsCloud(id) then
      p.(sets := p.sets - {CLOUD_RECENT_SET, CLOUD_RECENT_ATTACHED_SET, CUSTOM_SET},
         recent := [],
         sent := p.sent + [ClearRecent(id == CLOUD_RECENT_ATTACHED_SET)])
    else if id !in p.sets then p
    else
      var x := p.sets[id];
      var q := p.(recent := Without(p.recent, x.stickers));
      if x.archived then q
      else
        q.(sent := q.sent + [Uninstall(id)],
           order := RemoveFirst(q.order, id),
           sets := if Held(x) then q.sets[id := Disabled(x)] else q.sets - {id})
  }

  function RemoveAll(p: Pack, ids: seq<nat>): Pack
    decreases |ids|
  {
    if |ids| == 0 then p else RemoveOne(RemoveAll(p, ids[..|ids| - 1]), Last(ids))
  }

  function Cleared(x: StickerSet, kind: StickersType): StickerSet {
    if !x.archived && TypeOf(x) == kind then x.(installed := false) else x
  }

  function ClearInstalled(sets: map<nat, StickerSet>, kind: StickersType): map<nat, StickerSet> {
    map id | id in sets :: Cleared(sets[id], kind)
  }

  function Installed(x: StickerSet, restore: bool, now: nat): StickerSet {
    x.(installed := true, archived := x.archived && !restore,
       installDate := if x.installDate == 0 then now else x.installDate)
  }

  function InstallOne(p: Pack, id: nat, removed: seq<nat>, now: nat): Pack {
    if id !in p.sets then p
    else
      var x := p.sets[id];
      var restore := id !in removed;
      p.(sets := p.sets[id := Installed(x, restore, now)],
         order := p.order + [id],
         sent := p.sent + if x.archived && restore then [Install(id)] else [])
  }

  function InstallAll(p: Pack, ids: seq<nat>, removed: seq<nat>, now: nat): Pack
    decreases |ids|
  {
    if |ids| == 0 then p else InstallOne(InstallAll(p, ids[..|ids| - 1], removed, now), Last(ids), removed, now)
  }

  predicate Kept(x: StickerSet) {
    x.featured || x.installed || x.archived || x.special || x.emoji || x.locked > 0
  }

  function Sweep(sets: map<nat, StickerSet>): map<nat, StickerSet> {
    map id | id in sets && Kept(sets[id]) :: sets[id]
  }

  function Restarted(p: Pack, e: Edit): Pack {
    var q := RemoveAll(p, e.localRemoved);
    q.(sets := ClearInstalled(q.sets, e.kind), order := [])
  }

  function Save(p: Pack, e: Edit): Pack {
    var q := InstallAll(Restarted(p, e), e.localOrder, e.localRemoved, e.now);
    q.(sets := Sweep(q.sets))
  }

  // ---------- what one pass does to one set ----------

  lemma TypeIs(x: StickerSet)
    ensures TypeOf(x) == Emoji <==> x.emoji
    ensures TypeOf(x) == Masks <==> x.masks && !x.emoji
    ensures TypeOf(x) == Stickers <==> !x.masks && !x.emoji
  {
  }

  lemma {:induction false} WithoutIs(recent: seq<nat>, stickers: set<nat>)
    ensures Without(recent, stickers) == Filter(recent, (x: nat) => x !in stickers)
  {
    if |recent| > 0 {
      WithoutIs(recent[..|recent| - 1], stickers);
      assert recent == recent[..|recent| - 1] + [Last(recent)];
      FilterPush(recent[..|recent| - 1], Last(recent), (x: nat) => x !in stickers);
    }
  }

  /** The first of an id leaves the order, and an order without it stays. */
  lemma {:induction false} RemoveFirstIs(a: seq<nat>, id: nat, b: seq<nat>)
    requires id !in a
    ensures RemoveFirst(a + [id] + b, id) == a + b && RemoveFirst(a, id) == a
  {
    if |a| > 0 {
      var rest := a[1..];
      RemoveFirstIs(rest, id, b);
      assert (a + [id] + b)[1..] == rest + [id] + b && a == [a[0]] + rest;
      Assoc([a[0]], rest, b);
    } else {
      assert a + [id] + b == [id] + b && ([id] + b)[1..] == b && a + b == b;
    }
  }

  /** Removing a cloud set takes both away, with the custom one, empties the recent and clears the cloud. */
  lemma RemovesCloud(p: Pack, attached: bool)
    ensures var id := if attached then CLOUD_RECENT_ATTACHED_SET else CLOUD_RECENT_SET;
            var q := RemoveOne(p, id);
            && q.recent == [] && q.order == p.order && q.sent == p.sent + [ClearRecent(attached)]
            && q.sets == p.sets - {CLOUD_RECENT_SET, CLOUD_RECENT_ATTACHED_SET, CUSTOM_SET}
  {
  }

  /**
   * Any other set is uninstalled, unless it is archived: it leaves the order, and the store as well unless something
   * else holds on to it, for which it is then neither installed nor archived. Its stickers are not recent any more.
   */
  lemma RemovesOrdinary(p: Pack, id: nat)
    requires id != CLOUD_RECENT_SET && id != CLOUD_RECENT_ATTACHED_SET && id in p.sets
    ensures var x, q := p.sets[id], RemoveOne(p, id);
            var held := x.featured || x.special || x.emoji || x.locked > 0;
            && q.recent == Filter(p.recent, (y: nat) => y !in x.stickers)
            && (x.archived ==> q.sets == p.sets && q.order == p.order && q.sent == p.sent)
            && (!x.archived ==>
                  && q.sent == p.sent + [Uninstall(id)] && q.order == RemoveFirst(p.order, id)
                  && q.sets.Keys == (if held then p.sets.Keys else p.sets.Keys - {id})
                  && (forall other | other in q.sets && other != id :: q.sets[other] == p.sets[other])
                  && (held ==> q.sets[id] == x.(installed := false, archived := false, installDate := 0)))
  {
    WithoutIs(p.recent, p.sets[id].stickers);
  }

  /** An ordered set is installed, with the time unless it has one, and restored if it is archived and not removed. */
  lemma InstallsOrdered(p: Pack, id: nat, removed: seq<nat>, now: nat)
    requires id in p.sets
    ensures var x, q := p.sets[id], InstallOne(p, id, removed, now);
            var y := q.sets[id];
            && q.order == p.order + [id] && q.recent == p.recent && q.sets == p.sets[id := y]
            && y == x.(installed := true, archived := y.archived, installDate := y.installDate)
            && (y.archived <==> x.archived && id in removed)
            && y.installDate == (if x.installDate == 0 then now else x.installDate)
            && q.sent == p.sent + if x.archived && id !in removed then [Install(id)] else []
  {
  }

  // ---------- what becomes of one set ----------

  function Lookup(sets: map<nat, StickerSet>, id: nat): Option<StickerSet> {
    if id in sets then Some(sets[id]) else None
  }

  ghost predicate ClearsCloud(removed: seq<nat>) {
    exists id | id in removed :: IsCloud(id)
  }

  /** The fate of one set under the removals, whatever their order and repetitions. */
  ghost function AfterRemoval(x: Option<StickerSet>, id: nat, removed: seq<nat>): Option<StickerSet> {
    if x == None || (ClearsCloud(removed) && (IsCloud(id) || id == CUSTOM_SET)) then None
    else if id !in removed || x.value.archived then x
    else if Held(x.value) then Some(Disabled(x.value))
    else None
  }

  ghost function AfterInstall(x: Option<StickerSet>, id: nat, e: Edit): Option<StickerSet> {
    if x == None || id !in e.localOrder then x else Some(Installed(x.value, id !in e.localRemoved, e.now))
  }

  /** The fate of one set under the whole edit, from what it was before and from membership in the two lists only. */
  ghost function Outcome(x: Option<StickerSet>, id: nat, e: Edit): Option<StickerSet> {
    match AfterRemoval(x, id, e.localRemoved)
    case None => None
    case Some(y) =>
      var z := AfterInstall(Some(Cleared(y, e.kind)), id, e);
      if Kept(z.value) then z else None
  }

  lemma InInit<T>(s: seq<T>, x: T)
    requires |s| > 0
    ensures x in s <==> x in s[..|s| - 1] || x == Last(s)
  {
    assert s == s[..|s| - 1] + [Last(s)];
  }

  lemma {:induction false} RemoveAllAt(p: Pack, removed: seq<nat>, id: nat)
    ensures Lookup(RemoveAll(p, removed).sets, id) == AfterRemoval(Lookup(p.sets, id), id, removed)
    decreases |removed|
  {
    if |removed| > 0 {
      var init := removed[..|removed| - 1];
      RemoveAllAt(p, init, id);
      InInit(removed, id);
      assert ClearsCloud(removed) <==> ClearsCloud(init) || IsCloud(Last(removed)) by {
        assert forall c :: c in removed <==> c in init || c == Last(removed) by {
          forall c
            ensures c in removed <==> c in init || c == Last(removed)
          {
            InInit(removed, c);
          }
        }
      }
    }
  }

  lemma {:induction false} InstallAllAt(p: Pack, ids: seq<nat>, removed: seq<nat>, now: nat, id: nat)
    ensures Lookup(InstallAll(p, ids, removed, now).sets, id)
         == AfterInstall(Lookup(p.sets, id), id, Edit(ids, removed, Stickers, now))
    decreases |ids|
  {
    if |ids| > 0 {
      InstallAllAt(p, ids[..|ids| - 1], removed, now, id);
      InInit(ids, id);
    }
  }

  /** The passes over the lists do to each set exactly what the closed form says. */
  lemma SaveAt(p: Pack, e: Edit, id: nat)
    ensures Lookup(Save(p, e).sets, id) == Outcome(Lookup(p.sets, id), id, e)
  {
    RemoveAllAt(p, e.localRemoved, id);
    InstallAllAt(Restarted(p, e), e.localOrder, e.localRemoved, e.now, id);
  }

  // ---------- what the edit promises ----------

  function Restrict(ids: seq<nat>, keys: set<nat>): seq<nat> {
    if |ids| == 0 then []
    else Restrict(ids[..|ids| - 1], keys) + if Last(ids) in keys then [Last(ids)] else []
  }

  lemma {:induction false} InstallAllOrder(p: Pack, ids: seq<nat>, removed: seq<nat>, now: nat)
    ensures InstallAll(p, ids, removed, now).order == p.order + Restrict(ids, p.sets.Keys)
    ensures InstallAll(p, ids, removed, now).sets.Keys == p.sets.Keys
    ensures InstallAll(p, ids, removed, now).recent == p.recent
    decreases |ids|
  {
    if |ids| > 0 {
      InstallAllOrder(p, ids[..|ids| - 1], removed, now);
    }
  }

  lemma {:induction false} RestrictAgrees(ids: seq<nat>, a: set<nat>, b: set<nat>)
    requires forall id | id in ids :: id in a <==> id in b
    ensures Restrict(ids, a) == Restrict(ids, b)
  {
    if |ids| > 0 {
      assert forall id | id in ids[..|ids| - 1] :: id in ids;
      RestrictAgrees(ids[..|ids| - 1], a, b);
    }
  }

  lemma {:induction false} RestrictIn(ids: seq<nat>, keys: set<nat>, id: nat)
    ensures id in Restrict(ids, keys) <==> id in ids && id in keys
  {
    if |ids| > 0 {
      RestrictIn(ids[..|ids| - 1], keys, id);
      InInit(ids, id);
    }
  }

  /** The new order is the user's order, less the sets that no longer exist. */
  lemma OrderIsRestricted(p: Pack, e: Edit)
    ensures Save(p, e).order == Restrict(e.localOrder, Save(p, e).sets.Keys)
  {
    var q := Restarted(p, e);
    InstallAllOrder(q, e.localOrder, e.localRemoved, e.now);
    forall id | id in e.localOrder
      ensures id in q.sets.Keys <==> id in Save(p, e).sets.Keys
    {
      InstallAllAt(q, e.localOrder, e.localRemoved, e.now, id);
    }
    RestrictAgrees(e.localOrder, q.sets.Keys, Save(p, e).sets.Keys);
  }

  /** Of the sets of the edited type that are not archived, exactly the ordered ones are installed. */
  lemma InstalledIffOrdered(p: Pack, e: Edit, id: nat)
    requires id in Save(p, e).sets
    requires var x := Save(p, e).sets[id]; !x.archived && TypeOf(x) == e.kind
    ensures Save(p, e).sets[id].installed <==> id in Save(p, e).order
  {
    SaveAt(p, e, id);
    OrderIsRestricted(p, e);
    RestrictIn(e.localOrder, Save(p, e).sets.Keys, id);
  }

  /** An archived set in the order is installed again, unless the same edit removes it. */
  lemma OrderedIsInstalled(p: Pack, e: Edit, id: nat)
    requires id in Save(p, e).order
    ensures id in Save(p, e).sets && Save(p, e).sets[id].installed
    ensures Save(p, e).sets[id].archived <==> id in e.localRemoved && id in p.sets && p.sets[id].archived
  {
    SaveAt(p, e, id);
    OrderIsRestricted(p, e);
    RestrictIn(e.localOrder, Save(p, e).sets.Keys, id);
  }

  lemma {:induction false} WithoutIn(recent: seq<nat>, stickers: set<nat>, x: nat)
    ensures x in Without(recent, stickers) <==> x in recent && x !in stickers
  {
    if |recent| > 0 {
      WithoutIn(recent[..|recent| - 1], stickers, x);
      InInit(recent, x);
    }
  }

  /** How far the removals are with a set that was there: if they were at it, its stickers are gone from the recent. */
  ghost predicate Forgetting(q: Pack, stickers: set<nat>, id: nat, x: nat, done: bool) {
    && (done ==> x !in q.recent)
    && (id in q.sets ==> q.sets[id].stickers == stickers)
    && (id !in q.sets ==> done || q.recent == [])
  }

  lemma RemoveOneForgets(q: Pack, r: nat, stickers: set<nat>, id: nat, x: nat, done: bool)
    requires Forgetting(q, stickers, id, x, done) && x in stickers
    ensures Forgetting(RemoveOne(q, r), stickers, id, x, done || r == id)
  {
    if r in q.sets {
      WithoutIn(q.recent, q.sets[r].stickers, x);
    }
    if q.recent == [] && r in q.sets {
      assert Without(q.recent, q.sets[r].stickers) == [];
    }
  }

  lemma {:induction false} RemoveAllForgets(p: Pack, removed: seq<nat>, id: nat, x: nat)
    requires id in p.sets && x in p.sets[id].stickers
    ensures Forgetting(RemoveAll(p, removed), p.sets[id].stickers, id, x, id in removed)
    decreases |removed|
  {
    if |removed| > 0 {
      var init := removed[..|removed| - 1];
      RemoveAllForgets(p, init, id, x);
      InInit(removed, id);
      RemoveOneForgets(RemoveAll(p, init), Last(removed), p.sets[id].stickers, id, x, id in init);
    }
  }

  /** No sticker of a removed set that was there is recent any more. */
  lemma RecentForgets(p: Pack, e: Edit, id: nat, x: nat)
    requires id in e.localRemoved && id in p.sets && x in p.sets[id].stickers
    ensures x !in Save(p, e).recent
  {
    RemoveAllForgets(p, e.localRemoved, id, x);
    InstallAllOrder(Restarted(p, e), e.localOrder, e.localRemoved, e.now);
  }

  /** The set is of the type of the edit, named by it, or one of the three that go with a cloud. */
  predicate Concerns(e: Edit, id: nat, x: StickerSet) {
    || TypeOf(x) == e.kind || id in e.localOrder || id in e.localRemoved
    || id in {CLOUD_RECENT_SET, CLOUD_RECENT_ATTACHED_SET, CUSTOM_SET}
  }

  /** Whatever survives is kept by a flag or a lock; of the sets the edit does not concern these stay as they are. */
  lemma SurvivorsAreKept(p: Pack, e: Edit, id: nat)
    ensures id in Save(p, e).sets ==>
              var x := Save(p, e).sets[id];
              x.featured || x.installed || x.archived || x.special || x.emoji || x.locked > 0
    ensures id in p.sets && !Concerns(e, id, p.sets[id]) ==>
              var x := p.sets[id];
              if x.featured || x.installed || x.archived || x.special || x.emoji || x.locked > 0
              then id in Save(p, e).sets && Save(p, e).sets[id] == x else id !in Save(p, e).sets
  {
    SaveAt(p, e, id);
  }

  // ---------- which requests are sent ----------

  function Sent(p: Pack, r: Request): nat {
    multiset(p.sent)[r]
  }

  /** Each restored set is asked for once, however often the order names it. */
  lemma {:induction false} InstallAllSent(p: Pack, ids: seq<nat>, removed: seq<nat>, now: nat, id: nat)
    ensures Sent(InstallAll(p, ids, removed, now), Install(id))
         == Sent(p, Install(id)) + if id in p.sets && p.sets[id].archived && id in ids && id !in removed then 1 else 0
    ensures Sent(InstallAll(p, ids, removed, now), Uninstall(id)) == Sent(p, Uninstall(id))
    decreases |ids|
  {
    if |ids| > 0 {
      InstallAllSent(p, ids[..|ids| - 1], removed, now, id);
      InstallAllAt(p, ids[..|ids| - 1], removed, now, id);
      InInit(ids, id);
    }
  }

  lemma RemoveOneSent(q: Pack, r: nat, id: nat)
    requires !IsCloud(id)
    ensures Sent(RemoveOne(q, r), Uninstall(id))
         == Sent(q, Uninstall(id)) + if r == id && id in q.sets && !q.sets[id].archived then 1 else 0
    ensures Sent(RemoveOne(q, r), Install(id)) == Sent(q, Install(id))
  {
  }

  function Uninstalls(x: Option<StickerSet>, times: nat): nat {
    if x == None || x.value.archived || times == 0 then 0 else if Held(x.value) then times else 1
  }

  lemma Occurrences(s: seq<nat>, x: nat)
    requires |s| > 0
    ensures multiset(s)[x] == multiset(s[..|s| - 1])[x] + if Last(s) == x then 1 else 0
    ensures x in s[..|s| - 1] <==> multiset(s[..|s| - 1])[x] > 0
    ensures x in s <==> multiset(s)[x] > 0
  {
    assert s == s[..|s| - 1] + [Last(s)];
  }

  /** A set is uninstalled once for each time it is named while it is there and not archived. */
  lemma {:induction false} RemoveAllSent(p: Pack, removed: seq<nat>, id: nat)
    requires !IsCloud(id) && id != CUSTOM_SET
    ensures Sent(RemoveAll(p, removed), Uninstall(id))
         == Sent(p, Uninstall(id)) + Uninstalls(Lookup(p.sets, id), multiset(removed)[id])
    ensures Sent(RemoveAll(p, removed), Install(id)) == Sent(p, Install(id))
    decreases |removed|
  {
    if |removed| > 0 {
      var init := removed[..|removed| - 1];
      RemoveAllSent(p, init, id);
      RemoveAllAt(p, init, id);
      RemoveOneSent(RemoveAll(p, init), Last(removed), id);
      Occurrences(removed, id);
    }
  }

  /**
   * The requests of an edit: an uninstall for each time a removed set is named while it is there and not archived,
   * and one install for an archived set that is ordered and not removed.
   */
  lemma RequestsOfSave(p: Pack, e: Edit, id: nat)
    requires !IsCloud(id) && id != CUSTOM_SET
    ensures Sent(Save(p, e), Uninstall(id))
         == Sent(p, Uninstall(id)) + Uninstalls(Lookup(p.sets, id), multiset(e.localRemoved)[id])
    ensures Sent(Save(p, e), Install(id)) == Sent(p, Install(id))
         + if id in p.sets && p.sets[id].archived && id in e.localOrder && id !in e.localRemoved then 1 else 0
  {
    RemoveAllSent(p, e.localRemoved, id);
    RemoveAllAt(p, e.localRemoved, id);
    InstallAllSent(Restarted(p, e), e.localOrder, e.localRemoved, e.now, id);
  }

  /** How many of the requests change a set, and are waited for before the order goes out. */
  function Changes(sent: seq<Request>): nat {
    if |sent| == 0 then 0
    else Changes(sent[..|sent| - 1]) + if Last(sent).ClearRecent? then 0 else 1
  }

  lemma {:induction false} ChangesAre(sent: seq<Request>)
    ensures Changes(sent) == |Filter(sent, (r: Request) => r.Uninstall? || r.Install?)|
  {
    if |sent| > 0 {
      ChangesAre(sent[..|sent| - 1]);
      assert sent == sent[..|sent| - 1] + [Last(sent)];
      FilterPush(sent[..|sent| - 1], Last(sent), (r: Request) => r.Uninstall? || r.Install?);
    }
  }

  lemma {:induction false} RemoveAllAppends(p: Pack, removed: seq<nat>)
    ensures p.sent <= RemoveAll(p, removed).sent
    decreases |removed|
  {
    if |removed| > 0 {
      RemoveAllAppends(p, removed[..|removed| - 1]);
    }
  }

  lemma {:induction false} InstallAllAppends(p: Pack, ids: seq<nat>, removed: seq<nat>, now: nat)
    ensures p.sent <= InstallAll(p, ids, removed, now).sent
    decreases |ids|
  {
    if |ids| > 0 {
      InstallAllAppends(p, ids[..|ids| - 1], removed, now);
    }
  }

  /** An edit sends requests, and takes none back. */
  lemma SaveAppends(p: Pack, e: Edit)
    ensures p.sent <= Save(p, e).sent
  {
    RemoveAllAppends(p, e.localRemoved);
    InstallAllAppends(Restarted(p, e), e.localOrder, e.localRemoved, e.now);
  }

  // ---------- the client's store ----------

  class Store {
    var sets: map<nat, StickerSet>
    var order: seq<nat>
    var recent: seq<nat>
    var sent: seq<Request>

    ghost function Value(): Pack
      reads this
    {
      Pack(sets, order, recent, sent)
    }

    method ForgetRecent(stickers: set<nat>)
      modifies this`recent
      ensures recent == Without(old(recent), stickers)
    {
      var left, i := [], 0;
      while i < |recent|
        invariant 0 <= i <= |recent| && recent == old(recent) && left == Without(recent[..i], stickers)
      {
        assert recent[..i + 1][..i] == recent[..i];
        if recent[i] !in stickers {
          left := left + [recent[i]];
        }
        i := i + 1;
      }
      assert recent[..i] == recent;
      recent := left;
    }

    method RemoveSet(id: nat)
      modifies this
      ensures Value() == RemoveOne(old(Value()), id)
    {
      if id == CLOUD_RECENT_SET || id == CLOUD_RECENT_ATTACHED_SET {
        sets := sets - {CLOUD_RECENT_SET};
        sets := sets - {CLOUD_RECENT_ATTACHED_SET};
        sets := sets - {CUSTOM_SET};
        recent := [];
        sent := sent + [ClearRecent(id == CLOUD_RECENT_ATTACHED_SET)];
        assert sets == old(sets) - {CLOUD_RECENT_SET, CLOUD_RECENT_ATTACHED_SET, CUSTOM_SET};
      } else if id in sets {
        var x := sets[id];
        ForgetRecent(x.stickers);
        if !x.archived {
          sent := sent + [Uninstall(id)];
          order := RemoveFirst(order, id);
          if !x.featured && !x.special && !x.emoji && !(x.locked > 0) {
            sets := sets - {id};
          } else {
            sets := sets[id := x.(installed := false, archived := false, installDate := 0)];
          }
        }
      }
    }

    method RemoveSets(removed: seq<nat>)
      modifies this
      ensures Value() == RemoveAll(old(Value()), removed)
    {
      var i := 0;
      while i < |removed|
        invariant 0 <= i <= |removed| && Value() == RemoveAll(old(Value()), removed[..i])
      {
        assert removed[..i + 1][..i] == removed[..i];
        RemoveSet(removed[i]);
        i := i + 1;
      }
      assert removed[..i] == removed;
    }

    method ClearInstalledFlags(kind: StickersType)
      modifies this`sets
      ensures sets == ClearInstalled(old(sets), kind)
    {
      var remaining := sets.Keys;
      while remaining != {}
        invariant remaining <= sets.Keys == old(sets.Keys)
        invariant forall id | id in sets ::
                    sets[id] == if id in remaining then old(sets)[id] else Cleared(old(sets)[id], kind)
        decreases remaining
      {
        var id :| id in remaining;
        var x := sets[id];
        var thatType := if x.emoji then Emoji else if x.masks then Masks else Stickers;
        if !x.archived && kind == thatType {
          sets := sets[id := x.(installed := false)];
        }
        remaining := remaining - {id};
      }
    }

    method InstallSet(id: nat, localRemoved: seq<nat>, now: nat)
      modifies this
      ensures Value() == InstallOne(old(Value()), id, localRemoved, now)
    {
      if id in sets {
        var x := sets[id];
        if x.archived && id !in localRemoved {
          sent := sent + [Install(id)];
          x := x.(archived := false);
        }
        order := order + [id];
        x := x.(installed := true);
        if x.installDate == 0 {
          x := x.(installDate := now);
        }
        sets := sets[id := x];
      }
    }

    method InstallSets(localOrder: seq<nat>, localRemoved: seq<nat>, now: nat)
      modifies this
      ensures Value() == InstallAll(old(Value()), localOrder, localRemoved, now)
    {
      var i := 0;
      while i < |localOrder|
        invariant 0 <= i <= |localOrder|
        invariant Value() == InstallAll(old(Value()), localOrder[..i], localRemoved, now)
      {
        assert localOrder[..i + 1][..i] == localOrder[..i];
        InstallSet(localOrder[i], localRemoved, now);
        i := i + 1;
      }
      assert localOrder[..i] == localOrder;
    }

    method SweepSets()
      modifies this`sets
      ensures sets == Sweep(old(sets))
    {
      var remaining := sets.Keys;
      while remaining != {}
        invariant remaining <= sets.Keys <= old(sets.Keys)
        invariant forall id | id in old(sets) :: id in sets <==> id in remaining || Kept(old(sets)[id])
        invariant forall id | id in sets :: sets[id] == old(sets)[id]
        decreases remaining
      {
        var id :| id in remaining;
        var x := sets[id];
        if !(x.featured || x.installed || x.archived || x.special || x.emoji || x.locked > 0) {
          sets := sets - {id};
        }
        remaining := remaining - {id};
      }
    }

    method SaveStickerSets(localOrder: seq<nat>, localRemoved: seq<nat>, kind: StickersType, now: nat)
      modifies this
      ensures Value() == Save(old(Value()), Edit(localOrder, localRemoved, kind, now))
    {
      RemoveSets(localRemoved);
      ClearInstalledFlags(kind);
      order := [];
      InstallSets(localOrder, localRemoved, now);
      SweepSets();
    }
  }
}
