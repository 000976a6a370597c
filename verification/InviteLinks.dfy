/** The cached invite links of a peer: where the permanent link stands, and which link the peer is known by. */
module InviteLinks {
  import opened Util

  datatype Link = Link(link: string, permanent: bool, revoked: bool, usage: int, title: string)

  datatype Slice = Slice(links: seq<Link>, count: int)

  /** The first slice of links, if one is cached, and the invite link stored with the peer. */
  datatype Peer = Peer(slice: Option<Slice>, inviteLink: string)

  const NO_PEER := Peer(None, "")

  predicate Active(l: Link) {
    l.permanent && !l.revoked
  }

  /** The permanent link, which is only looked for at the front. */
  predicate HasPermanent(links: seq<Link>) {
    |links| > 0 && Active(links[0])
  }

  function SliceOf(p: Peer): Slice {
    if p.slice.Some? then p.slice.value else Slice([], 0)
  }

  function Less(count: int): int {
    if count > 0 then count - 1 else count
  }

  /** The slice without the permanent link at its front. */
  function Dropped(s: Slice): Slice
    requires HasPermanent(s.links)
  {
    Slice(s.links[1..], Less(s.count))
  }

  // ---------- the operations ----------

  /** A new link of mine comes first, or right after the permanent one. */
  function Prepend(p: Peer, l: Link): Peer {
    var s := SliceOf(p);
    var had := HasPermanent(s.links);
    var t := if l.permanent && had then Dropped(s) else s;
    var place := if had && !l.permanent then 1 else 0;
    Peer(Some(Slice(t.links[..place] + [l] + t.links[place..], t.count + 1)),
         if l.permanent then l.link else p.inviteLink)
  }

  function FindLink(links: seq<Link>, key: string, from: nat := 0): (i: nat)
    requires from <= |links|
    ensures from <= i <= |links| && (i < |links| ==> links[i].link == key)
    ensures forall k | from <= k < i :: links[k].link != key
    decreases |links| - from
  {
    if from == |links| || links[from].link == key then from else FindLink(links, key, from + 1)
  }

  function Erased(links: seq<Link>, j: nat): seq<Link>
    requires j < |links|
  {
    links[..j] + links[j + 1..]
  }

  /** The reply to an edit: a link that became revoked leaves the list, any other takes its new form. */
  function EditReply(p: Peer, key: string, l: Link): Peer {
    var s := SliceOf(p);
    var j := FindLink(s.links, key);
    if p.slice == None || j == |s.links| then p
    else if l.revoked && !s.links[j].revoked then
      p.(slice := Some(Slice(Erased(s.links, j), Less(s.count))))
    else p.(slice := Some(s.(links := s.links[j := l])))
  }

  function FindActive(links: seq<Link>, from: nat := 0): (i: nat)
    requires from <= |links|
    ensures from <= i <= |links| && (i < |links| ==> Active(links[i]))
    ensures forall k | from <= k < i :: !Active(links[k])
    decreases |links| - from
  {
    if from == |links| || Active(links[from]) then from else FindActive(links, from + 1)
  }

  function BringToFront(links: seq<Link>): seq<Link> {
    var i := FindActive(links);
    if i < |links| then [links[i]] + links[..i] + links[i + 1..] else links
  }

  function Inactive(links: seq<Link>): seq<Link> {
    if |links| == 0 then []
    else Inactive(links[..|links| - 1]) + if Active(Last(links)) then [] else [Last(links)]
  }

  /** The links of a reply, less the permanent one that is cached. */
  function Others(links: seq<Link>, mine: string): seq<Link> {
    if |links| == 0 then []
    else Others(links[..|links| - 1], mine) + if Last(links).link == mine then [] else [Last(links)]
  }

  /** The reply to a request for my links. */
  function LoadReply(p: Peer, links: seq<Link>, count: int): Peer {
    var s := SliceOf(p);
    if HasPermanent(s.links) then
      var merged := [s.links[0]] + Inactive(Others(links, s.links[0].link));
      p.(slice := Some(Slice(merged, if count >= |merged| then count else |merged|)))
    else
      var front := BringToFront(links);
      Peer(Some(Slice(front, count)), if HasPermanent(front) then front[0].link else p.inviteLink)
  }

  /** The permanent link as the full info of the peer reports it. */
  function SetPermanent(p: Peer, l: Link): Peer {
    var s := SliceOf(p);
    if !l.permanent then p
    else if HasPermanent(s.links) && s.links[0].link == l.link then
      p.(slice := Some(s.(links := s.links[0 := s.links[0].(usage := l.usage)])))
    else
      var t := if HasPermanent(s.links) then Dropped(s) else s;
      Peer(Some(t.(links := [l] + t.links)), l.link)
  }

  function ClearPermanent(p: Peer): Peer {
    if HasPermanent(SliceOf(p).links) then Peer(Some(Dropped(SliceOf(p))), "") else p
  }

  /** An update seen elsewhere, with the link string it is about. */
  function Update(p: Peer, l: Link): Peer {
    if p.slice == None then p
    else
      var s := p.slice.value;
      p.(slice := Some(s.(links := seq(|s.links|, i requires 0 <= i < |s.links| =>
                                                    if s.links[i].link == l.link then l else s.links[i]))))
  }

  datatype Action =
    | DoPrepend(created: Link)
    | DoEdit(key: string, edited: Link)
    | DoLoad(links: seq<Link>, count: int)
    | DoSet(reported: Link)
    | DoClear
    | DoUpdate(updated: Link)
    | DoForget // the cache of the peer is dropped

  function Step(p: Peer, a: Action): Peer {
    match a
    case DoPrepend(l) => Prepend(p, l)
    case DoEdit(key, l) => EditReply(p, key, l)
    case DoLoad(links, count) => LoadReply(p, links, count)
    case DoSet(l) => SetPermanent(p, l)
    case DoClear => ClearPermanent(p)
    case DoUpdate(l) => Update(p, l)
    case DoForget => p.(slice := None)
  }

  // ---------- what the operations do to the list and to what the peer is known by ----------

  /** The list is the old one with a link put in at one place. */
  ghost predicate PutIn(was: seq<Link>, now: seq<Link>, place: nat, l: Link) {
    && place < |now| == |was| + 1 && now[place] == l
    && now[..place] == was[..place] && now[place + 1..] == was[place..]
  }

  /** How many are counted when one leaves: none below zero. */
  ghost predicate OneLess(was: int, now: int) {
    now == if was <= 0 then was else was - 1
  }

  /** A new link stands first, or second behind a permanent one it does not replace; the old permanent one makes way. */
  lemma PrependPuts(p: Peer, l: Link)
    ensures var was, now := SliceOf(p), SliceOf(Prepend(p, l));
            var had := |was.links| > 0 && was.links[0].permanent && !was.links[0].revoked;
            && Prepend(p, l).slice.Some?
            && (!l.permanent && had ==> PutIn(was.links, now.links, 1, l) && now.count == was.count + 1)
            && (!had ==> PutIn(was.links, now.links, 0, l) && now.count == was.count + 1)
            && (l.permanent && had ==> PutIn(was.links[1..], now.links, 0, l) && OneLess(was.count, now.count - 1))
            && Prepend(p, l).inviteLink == (if l.permanent then l.link else p.inviteLink)
  {
  }

  /** An edited link leaves if it was revoked by the edit, and else is replaced in its place. */
  lemma EditReplaces(p: Peer, key: string, l: Link, j: nat)
    requires p.slice.Some? && j < |p.slice.value.links| && p.slice.value.links[j].link == key
    requires forall i | 0 <= i < j :: p.slice.value.links[i].link != key
    ensures var was, now := p.slice.value, SliceOf(EditReply(p, key, l));
            && EditReply(p, key, l).slice.Some? && EditReply(p, key, l).inviteLink == p.inviteLink
            && (l.revoked && !was.links[j].revoked ==>
                  PutIn(now.links, was.links, j, was.links[j]) && OneLess(was.count, now.count))
            && (!(l.revoked && !was.links[j].revoked) ==> now.links == was.links[j := l] && now.count == was.count)
  {
    assert FindLink(p.slice.value.links, key) == j;
  }

  /** A link that is not in the list is not edited. */
  lemma EditOfUnknown(p: Peer, key: string, l: Link)
    requires forall i | 0 <= i < |SliceOf(p).links| :: SliceOf(p).links[i].link != key
    ensures EditReply(p, key, l) == p
  {
  }

  /** The reported permanent link updates the usage of the one at the front, or takes its place, or goes before all. */
  lemma SetPuts(p: Peer, l: Link)
    ensures var was, now := SliceOf(p), SliceOf(SetPermanent(p, l));
            var had := |was.links| > 0 && was.links[0].permanent && !was.links[0].revoked;
            && (!l.permanent ==> SetPermanent(p, l) == p)
            && (l.permanent && had && was.links[0].link == l.link ==>
                  && SetPermanent(p, l) == p.(slice := Some(now)) && now.count == was.count
                  && now.links == was.links[0 := was.links[0].(usage := l.usage)])
            && (l.permanent && had && was.links[0].link != l.link ==>
                  && PutIn(was.links[1..], now.links, 0, l) && OneLess(was.count, now.count)
                  && SetPermanent(p, l).inviteLink == l.link)
            && (l.permanent && !had ==>
                  && PutIn(was.links, now.links, 0, l) && now.count == was.count
                  && SetPermanent(p, l).inviteLink == l.link)
  {
  }

  /** Clearing takes the permanent link away, if there is one; forgetting leaves only what the peer is known by. */
  lemma ClearTakes(p: Peer)
    ensures var was, now := SliceOf(p), SliceOf(ClearPermanent(p));
            if |was.links| > 0 && was.links[0].permanent && !was.links[0].revoked
            then PutIn(now.links, was.links, 0, was.links[0]) && OneLess(was.count, now.count)
                 && ClearPermanent(p).inviteLink == ""
            else ClearPermanent(p) == p
    ensures Step(p, DoForget) == Peer(None, p.inviteLink)
  {
  }

  /** An update changes the links of its string, wherever they are, and nothing else. */
  lemma UpdateReplaces(p: Peer, l: Link)
    ensures var was, now := SliceOf(p), SliceOf(Update(p, l));
            && (Update(p, l).slice == None <==> p.slice == None) && Update(p, l).inviteLink == p.inviteLink
            && |now.links| == |was.links| && now.count == was.count
            && forall i | 0 <= i < |was.links| ::
                 now.links[i] == if was.links[i].link == l.link then l else was.links[i]
  {
  }

  // ---------- what the cache keeps ----------

  /** Only the first link can be an active permanent one, and then the peer is known by it. */
  ghost predicate Good(p: Peer) {
    var links := SliceOf(p).links;
    && (forall i | 0 < i < |links| :: !Active(links[i]))
    && (HasPermanent(links) ==> p.inviteLink == links[0].link)
  }

  /** The list has at most one active permanent link. */
  ghost predicate OneActive(links: seq<Link>) {
    forall i, j | 0 <= i < j < |links| :: !(Active(links[i]) && Active(links[j]))
  }

  /** What the data of a step must meet, as far as it is not kept by the code itself. */
  ghost predicate Fits(p: Peer, a: Action) {
    var links := SliceOf(p).links;
    match a
    case DoEdit(key, l) =>
      var j := FindLink(links, key);
      j < |links| && Active(l) ==> j == 0 && l.link == p.inviteLink
    case DoLoad(reply, _) => !HasPermanent(links) ==> OneActive(reply)
    case DoUpdate(l) =>
      forall i | 0 <= i < |links| && links[i].link == l.link && Active(l) :: i == 0 && l.link == p.inviteLink
    case _ => true
  }

  lemma PrependKeeps(p: Peer, l: Link)
    requires Good(p)
    ensures Good(Prepend(p, l))
  {
  }

  lemma EraseKeeps(links: seq<Link>, inviteLink: string, count: int, count': int, j: nat)
    requires j < |links| && Good(Peer(Some(Slice(links, count)), inviteLink))
    ensures Good(Peer(Some(Slice(Erased(links, j), count')), inviteLink))
  {
    var after := Erased(links, j);
    forall i | 0 < i < |after|
      ensures !Active(after[i])
    {
      assert after[i] == links[if i < j then i else i + 1];
    }
    assert |after| > 0 ==> after[0] == links[if j == 0 then 1 else 0];
  }

  lemma ReplaceKeepsIff(p: Peer, j: nat, l: Link)
    requires Good(p) && p.slice.Some? && j < |p.slice.value.links|
    ensures var s := p.slice.value;
            Good(p.(slice := Some(s.(links := s.links[j := l])))) <==> (Active(l) ==> j == 0 && l.link == p.inviteLink)
  {
    assert p.slice.value.links[j := l][j] == l;
  }

  lemma EditKeepsIff(p: Peer, key: string, l: Link)
    requires Good(p)
    ensures Good(EditReply(p, key, l)) <==> Fits(p, DoEdit(key, l))
  {
    var links := SliceOf(p).links;
    var j := FindLink(links, key);
    if p.slice.Some? && j < |links| {
      if l.revoked && !links[j].revoked {
        EraseKeeps(links, p.inviteLink, p.slice.value.count, Less(p.slice.value.count), j);
      } else {
        ReplaceKeepsIff(p, j, l);
      }
    }
  }

  lemma {:induction false} InactiveIsInactive(links: seq<Link>)
    ensures forall l | l in Inactive(links) :: !Active(l)
  {
    if |links| > 0 {
      InactiveIsInactive(links[..|links| - 1]);
    }
  }

  lemma {:induction false} OthersAre(links: seq<Link>, mine: string)
    ensures Others(links, mine) == Filter(links, (l: Link) => l.link != mine)
  {
    if |links| > 0 {
      OthersAre(links[..|links| - 1], mine);
      assert links == links[..|links| - 1] + [Last(links)];
      FilterPush(links[..|links| - 1], Last(links), (l: Link) => l.link != mine);
    }
  }

  lemma {:induction false} InactiveAre(links: seq<Link>)
    ensures Inactive(links) == Filter(links, (l: Link) => !l.permanent || l.revoked)
  {
    if |links| > 0 {
      InactiveAre(links[..|links| - 1]);
      assert links == links[..|links| - 1] + [Last(links)];
      FilterPush(links[..|links| - 1], Last(links), (l: Link) => !l.permanent || l.revoked);
    }
  }

  /**
   * With a permanent link cached, the list of a reply is that link and, each as often and in the order as in the
   * reply, the links that are neither active permanent ones nor have its string; the count covers them.
   */
  lemma LoadMerges(p: Peer, reply: seq<Link>, count: int)
    requires HasPermanent(SliceOf(p).links)
    ensures var mine := SliceOf(p).links[0];
            var rest := Filter(reply, (l: Link) => l.link != mine.link && (!l.permanent || l.revoked));
            && SliceOf(LoadReply(p, reply, count)).links == [mine] + rest
            && SliceOf(LoadReply(p, reply, count)).count == (if count >= 1 + |rest| then count else 1 + |rest|)
            && LoadReply(p, reply, count).inviteLink == p.inviteLink
  {
    var mine := SliceOf(p).links[0];
    OthersAre(reply, mine.link);
    InactiveAre(Others(reply, mine.link));
    FilterTwice(reply, (l: Link) => l.link != mine.link, (l: Link) => !l.permanent || l.revoked,
                (l: Link) => l.link != mine.link && (!l.permanent || l.revoked));
  }

  /** Without one the reply is taken over, with its first active permanent link at the front and known to the peer. */
  lemma LoadTakesOver(p: Peer, reply: seq<Link>, count: int)
    requires !HasPermanent(SliceOf(p).links)
    ensures var q := LoadReply(p, reply, count);
            var links := SliceOf(q).links;
            && SliceOf(q).count == count && |links| == |reply|
            && (forall k | 0 <= k < |reply| && Active(reply[k]) && forall i | 0 <= i < k :: !Active(reply[i]) ::
                  && q.inviteLink == reply[k].link && links == [reply[k]] + reply[..k] + reply[k + 1..])
            && ((forall i | 0 <= i < |reply| :: !Active(reply[i])) ==> links == reply && q.inviteLink == p.inviteLink)
  {
    var j := FindActive(reply);
    forall k | 0 <= k < |reply| && Active(reply[k]) && forall i | 0 <= i < k :: !Active(reply[i])
      ensures k == j
    {
      assert j <= k;
    }
  }

  lemma OneActiveIff(links: seq<Link>, k: nat)
    requires k == FindActive(links) && k < |links|
    ensures OneActive(links) <==> forall i | k < i < |links| :: !Active(links[i])
  {
    if OneActive(links) {
      forall i | k < i < |links|
        ensures !Active(links[i])
      {
        assert !(Active(links[k]) && Active(links[i]));
      }
    }
  }

  lemma FrontAt(links: seq<Link>, k: nat, i: nat)
    requires k == FindActive(links) && k < |links| && i < |links|
    ensures |BringToFront(links)| == |links|
    ensures BringToFront(links)[i] == links[if i == 0 then k else if i <= k then i - 1 else i]
  {
  }

  /** The first active link goes to the front, and the others keep their order behind it. */
  lemma FrontIsGoodIff(links: seq<Link>)
    ensures (forall i | 0 < i < |BringToFront(links)| :: !Active(BringToFront(links)[i])) <==> OneActive(links)
    ensures HasPermanent(BringToFront(links)) <==> exists i :: 0 <= i < |links| && Active(links[i])
  {
    var k := FindActive(links);
    var front := BringToFront(links);
    if k < |links| {
      OneActiveIff(links, k);
      FrontAt(links, k, 0);
      if OneActive(links) {
        forall i | 0 < i < |front|
          ensures !Active(front[i])
        {
          FrontAt(links, k, i);
        }
      } else {
        var i :| k < i < |links| && Active(links[i]);
        FrontAt(links, k, i);
      }
    }
  }

  lemma LoadKeepsIff(p: Peer, links: seq<Link>, count: int)
    requires Good(p)
    ensures Good(LoadReply(p, links, count)) <==> Fits(p, DoLoad(links, count))
  {
    var s := SliceOf(p);
    if HasPermanent(s.links) {
      var rest := Inactive(Others(links, s.links[0].link));
      InactiveIsInactive(Others(links, s.links[0].link));
      assert forall i | 0 < i < |[s.links[0]] + rest| :: ([s.links[0]] + rest)[i] in rest;
    } else {
      FrontIsGoodIff(links);
    }
  }

  lemma UpdateKeepsIff(p: Peer, l: Link)
    requires Good(p)
    ensures Good(Update(p, l)) <==> Fits(p, DoUpdate(l))
  {
    var links, after := SliceOf(p).links, SliceOf(Update(p, l)).links;
    assert |after| == |links|;
    assert forall i | 0 <= i < |links| :: after[i] == if links[i].link == l.link then l else links[i];
  }

  /** Each operation keeps the order of the cache exactly when its data fits it; most operations always do. */
  lemma StepKeepsIff(p: Peer, a: Action)
    requires Good(p)
    ensures Good(Step(p, a)) <==> Fits(p, a)
  {
    match a {
      case DoPrepend(l) => PrependKeeps(p, l);
      case DoEdit(key, l) => EditKeepsIff(p, key, l);
      case DoLoad(links, count) => LoadKeepsIff(p, links, count);
      case DoSet(l) => SetKeeps(p, l);
      case DoClear =>
      case DoUpdate(l) => UpdateKeepsIff(p, l);
      case DoForget =>
    }
  }

  lemma SetKeeps(p: Peer, l: Link)
    requires Good(p)
    ensures Good(SetPermanent(p, l))
  {
  }

  // ---------- whole runs, with a server that keeps its word ----------

  /** The new form of a link keeps its string and its kind, and does not bring it back from revocation. */
  predicate Follows(was: Link, now: Link) {
    now.link == was.link && now.permanent == was.permanent && (was.revoked ==> now.revoked)
  }

  /** What is assumed of the data: updates follow what they update, a reply lists at most one active permanent link. */
  ghost predicate Honest(p: Peer, a: Action) {
    var links := SliceOf(p).links;
    match a
    case DoEdit(key, l) => forall i | 0 <= i < |links| && links[i].link == key :: Follows(links[i], l)
    case DoLoad(reply, _) => OneActive(reply)
    case DoUpdate(l) => forall i | 0 <= i < |links| && links[i].link == l.link :: Follows(links[i], l)
    case _ => true
  }

  lemma HonestFits(p: Peer, a: Action)
    requires Good(p) && Honest(p, a)
    ensures Fits(p, a)
  {
  }

  ghost predicate Next(p: Peer, q: Peer) {
    exists a :: Honest(p, a) && q == Step(p, a)
  }

  ghost predicate IsRun(peers: seq<Peer>) {
    && |peers| > 0 && peers[0].slice == None
    && (forall i | 0 <= i < |peers| - 1 :: Next(peers[i], peers[i + 1]))
  }

  /** In every reachable state only the first link can be an active permanent one, and the peer is known by it. */
  lemma {:induction false} Reachable(peers: seq<Peer>, i: nat)
    requires IsRun(peers) && i < |peers|
    ensures Good(peers[i])
  {
    if i > 0 {
      Reachable(peers, i - 1);
      assert Next(peers[i - 1], peers[i - 1 + 1]);
      var a :| Honest(peers[i - 1], a) && peers[i] == Step(peers[i - 1], a);
      HonestFits(peers[i - 1], a);
      StepKeepsIff(peers[i - 1], a);
    }
  }

  /** Two links that are both permanent and active in one reply: the second one stays out of place. */
  lemma TwoActiveBreakIt(a: Link, b: Link, count: int)
    requires Active(a) && Active(b)
    ensures Good(NO_PEER) && !Good(Step(NO_PEER, DoLoad([a, b], count)))
  {
    StepKeepsIff(NO_PEER, DoLoad([a, b], count));
    assert Active([a, b][0]) && Active([a, b][1]);
  }

  // ---------- the count ----------

  ghost predicate Covers(p: Peer) {
    SliceOf(p).count >= |SliceOf(p).links|
  }

  /** What the count must meet for a step: room for a reported link, and a reply that does not count too few. */
  predicate Counts(p: Peer, a: Action) {
    var s := SliceOf(p);
    match a
    case DoSet(l) =>
      l.permanent && !(HasPermanent(s.links) && s.links[0].link == l.link) ==> s.count > |s.links|
    case DoLoad(reply, count) => HasPermanent(s.links) || count >= |reply|
    case _ => true
  }

  /**
   * The count goes on covering the list exactly then: a reported link is not counted, and the count of a reply is
   * only corrected when a permanent link was cached. All other operations keep it.
   */
  lemma StepCoversIff(p: Peer, a: Action)
    requires Covers(p)
    ensures Covers(Step(p, a)) <==> Counts(p, a)
  {
    if a.DoLoad? && !HasPermanent(SliceOf(p).links) {
      var k := FindActive(a.links);
      if k < |a.links| {
        FrontAt(a.links, k, 0);
      }
    }
  }

  /** Nothing is cached, and a permanent link is reported: one link, counted as none. */
  lemma ReportedIsNotCounted(l: Link)
    requires l.permanent
    ensures Covers(NO_PEER) && Good(NO_PEER) && Honest(NO_PEER, DoSet(l))
    ensures SliceOf(Step(NO_PEER, DoSet(l))) == Slice([l], 0)
    ensures !Covers(Step(NO_PEER, DoSet(l)))
  {
    StepCoversIff(NO_PEER, DoSet(l));
  }

  // ---------- the client ----------

  class Client {
    var firstSlices: map<nat, Slice>
    var inviteLinks: map<nat, string> // the links stored with the peers

    function PeerOf(peer: nat): Peer
      reads this
    {
      Peer(if peer in firstSlices then Some(firstSlices[peer]) else None,
           if peer in inviteLinks then inviteLinks[peer] else "")
    }

    method EditPermanentLink(peer: nat, link: string)
      modifies this`inviteLinks
      ensures inviteLinks == old(inviteLinks)[peer := link]
    {
      inviteLinks := inviteLinks[peer := link];
    }

    method PrependMyToFirstSlice(peer: nat, link: Link)
      modifies this
      ensures PeerOf(peer) == Prepend(old(PeerOf(peer)), link)
      ensures forall other | other != peer :: PeerOf(other) == old(PeerOf(other))
    {
      var links := if peer in firstSlices then firstSlices[peer] else Slice([], 0);
      var hadPermanent := |links.links| > 0 && links.links[0].permanent && !links.links[0].revoked;
      if link.permanent && hadPermanent {
        links := Slice(links.links[1..], if links.count > 0 then links.count - 1 else links.count);
      }
      links := links.(count := links.count + 1);
      if hadPermanent && !link.permanent {
        links := links.(links := links.links[..1] + [link] + links.links[1..]);
      } else {
        links := links.(links := [link] + links.links);
        assert links.links == links.links[1..][..0] + [link] + links.links[1..][0..];
      }
      firstSlices := firstSlices[peer := links];
      if link.permanent {
        EditPermanentLink(peer, link.link);
      }
    }

    method EditReplied(peer: nat, key: string, link: Link)
      modifies this`firstSlices
      ensures PeerOf(peer) == EditReply(old(PeerOf(peer)), key, link)
      ensures forall other | other != peer :: PeerOf(other) == old(PeerOf(other))
    {
      if peer !in firstSlices {
        return;
      }
      var links := firstSlices[peer];
      var j := FindLink(links.links, key);
      if j == |links.links| {
        return;
      }
      if link.revoked && !links.links[j].revoked {
        links := Slice(links.links[..j] + links.links[j + 1..],
                       if links.count > 0 then links.count - 1 else links.count);
      } else {
        links := links.(links := links.links[j := link]);
      }
      firstSlices := firstSlices[peer := links];
    }

    method MyLinksReplied(peer: nat, reply: seq<Link>, count: int)
      modifies this
      ensures PeerOf(peer) == LoadReply(old(PeerOf(peer)), reply, count)
      ensures forall other | other != peer :: PeerOf(other) == old(PeerOf(other))
    {
      if peer in firstSlices && HasPermanent(firstSlices[peer].links) {
        var permanent := firstSlices[peer].links[0];
        var slice := ParseSlice(reply, permanent.link);
        slice := RemovePermanent(slice);
        var existing := [permanent] + slice;
        firstSlices := firstSlices[peer := Slice(existing, if count >= |existing| then count else |existing|)];
      } else {
        var slice := BringPermanentToFront(reply);
        firstSlices := firstSlices[peer := Slice(slice, count)];
        if |slice| > 0 && slice[0].permanent && !slice[0].revoked {
          EditPermanentLink(peer, slice[0].link);
        }
      }
    }

    method SetMyPermanent(peer: nat, link: Link)
      modifies this
      ensures PeerOf(peer) == SetPermanent(old(PeerOf(peer)), link)
      ensures forall other | other != peer :: PeerOf(other) == old(PeerOf(other))
    {
      if !link.permanent {
        return;
      }
      var links := if peer in firstSlices then firstSlices[peer] else Slice([], 0);
      if |links.links| > 0 && links.links[0].permanent && !links.links[0].revoked {
        var permanent := links.links[0];
        if permanent.link == link.link {
          firstSlices := firstSlices[peer := links.(links := links.links[0 := permanent.(usage := link.usage)])];
          return;
        }
        links := Slice(links.links[1..], if links.count > 0 then links.count - 1 else links.count);
      }
      firstSlices := firstSlices[peer := links.(links := [link] + links.links)];
      EditPermanentLink(peer, link.link);
    }

    method ClearMyPermanent(peer: nat)
      modifies this
      ensures PeerOf(peer) == ClearPermanent(old(PeerOf(peer)))
      ensures forall other | other != peer :: PeerOf(other) == old(PeerOf(other))
    {
      if peer !in firstSlices || !HasPermanent(firstSlices[peer].links) {
        return;
      }
      var links := firstSlices[peer];
      links := Slice(links.links[1..], if links.count > 0 then links.count - 1 else links.count);
      firstSlices := firstSlices[peer := links];
      EditPermanentLink(peer, "");
    }

    method ApplyExternalUpdate(peer: nat, updated: Link)
      modifies this`firstSlices
      ensures PeerOf(peer) == Update(old(PeerOf(peer)), updated)
      ensures forall other | other != peer :: PeerOf(other) == old(PeerOf(other))
    {
      if peer !in firstSlices {
        return;
      }
      var links := firstSlices[peer].links;
      var i := 0;
      while i < |links|
        invariant firstSlices == old(firstSlices) && 0 <= i <= |links| == |firstSlices[peer].links|
        invariant forall k | 0 <= k < |links| ::
                    links[k] == if k < i && firstSlices[peer].links[k].link == updated.link then updated
                                else firstSlices[peer].links[k]
      {
        if links[i].link == updated.link {
          links := links[i := updated];
        }
        i := i + 1;
      }
      assert links == SliceOf(Update(old(PeerOf(peer)), updated)).links;
      firstSlices := firstSlices[peer := firstSlices[peer].(links := links)];
    }
  }

  method ParseSlice(links: seq<Link>, mine: string) returns (result: seq<Link>)
    ensures result == Others(links, mine)
  {
    result := [];
    for i := 0 to |links|
      invariant result == Others(links[..i], mine)
    {
      assert links[..i + 1][..i] == links[..i];
      if links[i].link != mine {
        result := result + [links[i]];
      }
    }
    assert links[..|links|] == links;
  }

  method RemovePermanent(links: seq<Link>) returns (result: seq<Link>)
    ensures result == Inactive(links)
  {
    result := [];
    for i := 0 to |links|
      invariant result == Inactive(links[..i])
    {
      assert links[..i + 1][..i] == links[..i];
      if !(links[i].permanent && !links[i].revoked) {
        result := result + [links[i]];
      }
    }
    assert links[..|links|] == links;
  }

  method BringPermanentToFront(links: seq<Link>) returns (result: seq<Link>)
    ensures result == BringToFront(links)
  {
    var i := 0;
    while i < |links| && !(links[i].permanent && !links[i].revoked)
      invariant 0 <= i <= |links| && forall k | 0 <= k < i :: !Active(links[k])
    {
      i := i + 1;
    }
    assert i == FindActive(links);
    if i != |links| && i != 0 {
      return [links[i]] + links[..i] + links[i + 1..];
    }
    assert i == 0 && |links| > 0 ==> links == [links[0]] + links[..0] + links[1..];
    return links;
  }
}
