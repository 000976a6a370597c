/** Searching messages in a chat: pages of results, with the first page of each search cached under a text key. */
module MessagesSearch {
  import opened Util
  import opened PyText

  type Positive = n: nat | n > 0 witness 1

  datatype Tag = Custom(id: Positive) | Emoji(text: string)

  datatype Filter = NoFilter | Pinned

  datatype Request = Request(query: string, from: Option<nat>, tags: seq<Tag>, topMsgId: nat, filter: Filter)

  // ---------- the key of a request ----------

  function TagLine(tag: Tag): string {
    match tag
    case Custom(id) => "custom" + Natural(id)
    case Emoji(text) => "emoji" + text
  }

  function TagLines(tags: seq<Tag>): (lines: seq<string>)
    ensures |lines| == |tags|
  {
    seq(|tags|, i requires 0 <= i < |tags| => TagLine(tags[i]))
  }

  function FromLines(from: Option<nat>): seq<string> {
    if from.Some? then [Natural(from.value)] else []
  }

  function FilterLines(filter: Filter): seq<string> {
    match filter
    case NoFilter => []
    case Pinned => ["pinned"]
  }

  function KeyLines(r: Request): (lines: seq<string>)
    ensures |lines| > 0
  {
    [r.query] + FromLines(r.from) + TagLines(r.tags) + FilterLines(r.filter)
  }

  function Joined(lines: seq<string>): string
    requires |lines| > 0
  {
    if |lines| == 1 then lines[0] else Joined(lines[..|lines| - 1]) + "\n" + Last(lines)
  }

  function Token(r: Request): string {
    Joined(KeyLines(r))
  }

  lemma JoinedAppend(lines: seq<string>, line: string)
    requires |lines| > 0
    ensures Joined(lines + [line]) == Joined(lines) + "\n" + line
  {
    assert (lines + [line])[..|lines|] == lines;
  }

  lemma LinesGrow(head: seq<string>, tags: seq<Tag>, i: nat)
    requires i < |tags|
    ensures head + TagLines(tags)[..i] + [TagLine(tags[i])] == head + TagLines(tags)[..i + 1]
  {
  }

  method RequestToToken(request: Request) returns (result: string)
    ensures result == Token(request)
  {
    result := request.query;
    ghost var lines := [request.query];
    if request.from.Some? {
      JoinedAppend(lines, Natural(request.from.value));
      result := result + "\n" + Natural(request.from.value);
      lines := lines + [Natural(request.from.value)];
    }
    ghost var head := [request.query] + FromLines(request.from);
    assert lines == head + TagLines(request.tags)[..0];
    for i := 0 to |request.tags|
      invariant |lines| > 0 && lines == head + TagLines(request.tags)[..i] && result == Joined(lines)
    {
      LinesGrow(head, request.tags, i);
      JoinedAppend(lines, TagLine(request.tags[i]));
      lines := lines + [TagLine(request.tags[i])];
      result := result + "\n";
      match request.tags[i] {
        case Custom(id) => result := result + ("custom" + Natural(id));
        case Emoji(text) => result := result + ("emoji" + text);
      }
    }
    assert lines + FilterLines(request.filter) == KeyLines(request);
    assert lines + [] == lines;
    if request.filter == Pinned {
      JoinedAppend(lines, "pinned");
      assert "\npinned" == "\n" + "pinned";
      Assoc(result, "\n", "pinned");
      result := result + "\npinned";
    }
  }

  // ---------- when two requests share a key ----------

  ghost predicate OneLine(s: string) {
    forall i | 0 <= i < |s| :: s[i] != '\n'
  }

  ghost predicate Plain(r: Request) {
    OneLine(r.query) && forall i | 0 <= i < |r.tags| && r.tags[i].Emoji? :: OneLine(r.tags[i].text)
  }

  lemma LongerBreaks(a: string, x: string, b: string, y: string)
    requires a + "\n" + x == b + "\n" + y && |a| < |b|
    ensures !OneLine(x)
  {
    assert x[|b| - |a| - 1] == (a + "\n" + x)[|b|];
  }

  lemma LastLineOf(a: string, x: string, b: string, y: string)
    requires a + "\n" + x == b + "\n" + y && OneLine(x) && OneLine(y)
    ensures a == b && x == y
  {
    if |a| < |b| {
      LongerBreaks(a, x, b, y);
    } else if |b| < |a| {
      LongerBreaks(b, y, a, x);
    } else {
      var s, t := a + "\n" + x, b + "\n" + y;
      assert a == s[..|a|] && b == t[..|b|];
      assert x == s[|a| + 1..] && y == t[|b| + 1..];
    }
  }

  lemma {:induction false} JoinedInjective(a: seq<string>, b: seq<string>)
    requires |a| > 0 && |b| > 0 && Joined(a) == Joined(b)
    requires forall i | 0 <= i < |a| :: OneLine(a[i])
    requires forall i | 0 <= i < |b| :: OneLine(b[i])
    ensures a == b
    decreases |a|
  {
    if |a| == 1 || |b| == 1 {
      JoinedBreaks(a);
      JoinedBreaks(b);
    } else {
      LastLineOf(Joined(a[..|a| - 1]), Last(a), Joined(b[..|b| - 1]), Last(b));
      JoinedInjective(a[..|a| - 1], b[..|b| - 1]);
      assert a == a[..|a| - 1] + [Last(a)];
      assert b == b[..|b| - 1] + [Last(b)];
    }
  }

  lemma JoinedBreaks(a: seq<string>)
    requires |a| > 0
    ensures |a| > 1 ==> !OneLine(Joined(a))
  {
    if |a| > 1 {
      var k := |Joined(a[..|a| - 1])|;
      assert Joined(a)[k] == '\n';
    }
  }

  // ---------- the lines determine the request ----------

  /** The kinds of lines after the query are told apart by their first letters. */
  predicate IsTagLine(line: string) {
    |line| > 0 && (line[0] == 'c' || line[0] == 'e')
  }

  lemma NaturalInjective(m: nat, n: nat)
    requires Natural(m) == Natural(n)
    ensures m == n
  {
    ParseNatural(m);
    ParseNatural(n);
  }

  lemma TagLineInjective(a: Tag, b: Tag)
    requires TagLine(a) == TagLine(b)
    ensures a == b
  {
    assert "custom"[0] == 'c' && "emoji"[0] == 'e';
    match a {
      case Custom(m) =>
        assert TagLine(a)[0] == 'c';
        assert b.Custom?;
        assert TagLine(a)[6..] == Natural(m) && TagLine(b)[6..] == Natural(b.id);
        NaturalInjective(m, b.id);
      case Emoji(text) =>
        assert TagLine(a)[0] == 'e';
        assert b.Emoji?;
        assert TagLine(a)[5..] == text && TagLine(b)[5..] == b.text;
    }
  }

  lemma LineKinds(r: Request)
    ensures forall n: nat :: IsDigit(Natural(n)[0])
    ensures forall i | 0 <= i < |r.tags| :: IsTagLine(TagLine(r.tags[i]))
  {
    forall n: nat
      ensures IsDigit(Natural(n)[0])
    {
      assert Natural(n) != "";
    }
    forall i | 0 <= i < |r.tags|
      ensures IsTagLine(TagLine(r.tags[i]))
    {
      assert "custom"[0] == 'c' && "emoji"[0] == 'e';
    }
  }

  lemma PlainLines(r: Request)
    requires Plain(r)
    ensures forall i | 0 <= i < |KeyLines(r)| :: OneLine(KeyLines(r)[i])
  {
    forall n: nat
      ensures OneLine(Natural(n))
    {
      assert forall i | 0 <= i < |Natural(n)| :: IsDigit(Natural(n)[i]);
    }
    forall i | 0 <= i < |r.tags|
      ensures OneLine(TagLine(r.tags[i]))
    {
      assert OneLine("custom") && OneLine("emoji");
    }
    assert OneLine("pinned");
  }

  function TailLines(tags: seq<Tag>, filter: Filter): seq<string> {
    TagLines(tags) + FilterLines(filter)
  }

  /** The line of the filter is the last one, and no tag has it. */
  lemma FilterShows(tags: seq<Tag>, filter: Filter)
    ensures var lines := TailLines(tags, filter);
            filter == Pinned <==> |lines| > 0 && Last(lines) == "pinned"
  {
    if filter == NoFilter && |tags| > 0 {
      assert "custom"[0] == 'c' && "emoji"[0] == 'e' && "pinned"[0] == 'p';
      assert TagLine(Last(tags))[0] != 'p';
    }
  }

  lemma TailInjective(a: seq<Tag>, f: Filter, b: seq<Tag>, g: Filter)
    requires TailLines(a, f) == TailLines(b, g)
    ensures a == b && f == g
  {
    FilterShows(a, f);
    FilterShows(b, g);
    assert TailLines(a, f)[..|a|] == TagLines(a) && TailLines(b, g)[..|b|] == TagLines(b);
    assert |a| == |b|;
    forall i | 0 <= i < |a|
      ensures a[i] == b[i]
    {
      assert TagLines(a)[i] == TagLines(b)[i];
      TagLineInjective(a[i], b[i]);
    }
  }

  /** The line of the sender is the one that starts with a digit. */
  lemma SenderShows(r: Request)
    ensures r.from.Some? <==> |KeyLines(r)| > 1 && KeyLines(r)[1] != "" && IsDigit(KeyLines(r)[1][0])
  {
    LineKinds(r);
    assert "pinned"[0] == 'p';
    if r.from == None && |KeyLines(r)| > 1 {
      assert KeyLines(r)[1] == TailLines(r.tags, r.filter)[0];
    }
  }

  lemma KeyParts(r: Request)
    ensures KeyLines(r)[0] == r.query
    ensures r.from.Some? ==>
              && |KeyLines(r)| > 1 && KeyLines(r)[1] == Natural(r.from.value)
              && KeyLines(r)[2..] == TailLines(r.tags, r.filter)
    ensures r.from == None ==> KeyLines(r)[1..] == TailLines(r.tags, r.filter)
  {
  }

  lemma KeyLinesInjective(r: Request, q: Request)
    requires KeyLines(r) == KeyLines(q)
    ensures r.(topMsgId := q.topMsgId) == q
  {
    SenderShows(r);
    SenderShows(q);
    KeyParts(r);
    KeyParts(q);
    if r.from.Some? {
      NaturalInjective(r.from.value, q.from.value);
    }
    TailInjective(r.tags, r.filter, q.tags, q.filter);
  }

  /** As long as no text has line breaks, two requests share a key exactly when they differ in the topic at most. */
  lemma TokenInjective(r: Request, q: Request)
    requires Plain(r) && Plain(q)
    ensures Token(r) == Token(q) <==> r.(topMsgId := q.topMsgId) == q
  {
    if Token(r) == Token(q) {
      PlainLines(r);
      PlainLines(q);
      JoinedInjective(KeyLines(r), KeyLines(q));
      KeyLinesInjective(r, q);
    }
  }

  /** With a line break in the query the key is ambiguous: it may read like a filter. */
  lemma TokenAmbiguous(query: string)
    ensures Token(Request(query + "\npinned", None, [], 0, NoFilter)) == Token(Request(query, None, [], 0, Pinned))
  {
    var a, b := Request(query + "\npinned", None, [], 0, NoFilter), Request(query, None, [], 0, Pinned);
    assert KeyLines(a) == [query + "\npinned"];
    assert KeyLines(b) == [query] + ["pinned"];
    JoinedAppend([query], "pinned");
    assert "\npinned" == "\n" + "pinned";
    Assoc(query, "\n", "pinned");
  }

  // ---------- the search ----------

  /** A page of results, or the answer that nothing has changed, with the request and the offset it answers. */
  datatype Page = Page(asked: Request, offset: nat, messages: Option<seq<nat>>)

  /** A search handed to the queue of the chat and not sent yet, with the key it was started for. */
  datatype Waiting = Waiting(id: nat, token: string)

  /** A request on its way: the search it was sent for, and what it asks. */
  datatype Flight = Flight(search: Waiting, asked: Request, offset: nat)

  /** What the user of the search is told; an error of an empty query is told without a page. */
  datatype Found = Found(token: string, page: Option<Page>)

  /** The answer that nothing has changed is told as no results, for no search in particular. */
  function Told(page: Page, token: string): Found {
    if page.messages == None then Found("", None) else Found(token, Some(page))
  }

  function NextOffset(page: Page): nat {
    if page.messages == None || page.messages.value == [] then 0 else Last(page.messages.value)
  }

  /**
   * The fields of the search; whether messages of the chat are being deleted, which holds its searches back; the
   * searches held back and the requests on their way; and everything told so far.
   */
  datatype State = State(
    request: Request,
    offsetId: nat,
    requestId: nat,
    searching: nat,
    cache: map<string, Page>,
    deleting: bool,
    waiting: set<Waiting>,
    flights: map<nat, Flight>,
    found: seq<Found>,
    nextSearch: nat,
    nextRequest: nat)

  const INITIAL := State(Request("", None, [], 0, NoFilter), 0, 0, 0, map[], false, {}, map[], [], 1, 1)

  /** A page arrives, from the server or, under the id 0, from the cache. */
  function Received(s: State, page: Page, id: nat, token: string): State {
    if id != s.requestId then s
    else
      s.(cache := if s.offsetId == 0 && token !in s.cache then s.cache[token := page] else s.cache,
         requestId := 0,
         offsetId := NextOffset(page),
         found := s.found + [Told(page, token)])
  }

  predicate Cached(s: State) {
    s.offsetId == 0 && Token(s.request) in s.cache
  }

  /** A search is sent: it asks what the fields say by now. */
  function Dispatch(s: State, w: Waiting): State {
    s.(waiting := s.waiting - {w}, requestId := s.nextRequest, nextRequest := s.nextRequest + 1,
       flights := s.flights[s.nextRequest := Flight(w, s.request, s.offsetId)])
  }

  /** The cached page is told at once; otherwise the search goes to the queue, which sends it unless it holds back. */
  function SearchRequest(s: State): State {
    if Cached(s) then Received(s.(requestId := 0), s.cache[Token(s.request)], 0, Token(s.request))
    else
      var w := Waiting(s.nextSearch, Token(s.request));
      var t := s.(waiting := s.waiting + {w}, searching := s.nextSearch, nextSearch := s.nextSearch + 1);
      if s.deleting then t else Dispatch(t, w)
  }

  function Search(s: State, r: Request): State {
    SearchRequest(s.(request := r, offsetId := 0))
  }

  function More(s: State): State {
    if s.searching != 0 || s.requestId != 0 then s else SearchRequest(s)
  }

  /** Messages begin to be deleted: the requests on their way are taken back, to be sent again afterwards. */
  function HoldBack(s: State): State {
    s.(deleting := true, flights := map[], waiting := s.waiting + set id | id in s.flights :: s.flights[id].search)
  }

  function DispatchAll(s: State, order: seq<Waiting>): State
    decreases |order|
  {
    if |order| == 0 then s else Dispatch(DispatchAll(s, order[..|order| - 1]), Last(order))
  }

  function Resume(s: State, order: seq<Waiting>): State {
    DispatchAll(s.(deleting := false), order)
  }

  function Reply(s: State, id: nat, messages: Option<seq<nat>>): State
    requires id in s.flights
  {
    var f := s.flights[id];
    Received(s.(searching := 0, flights := s.flights - {id}), Page(f.asked, f.offset, messages), id, f.search.token)
  }

  function Fail(s: State, id: nat, emptyQuery: bool): State
    requires id in s.flights
  {
    s.(searching := 0, flights := s.flights - {id}, requestId := if s.requestId == id then 0 else s.requestId,
       found := if emptyQuery then s.found + [Found(s.flights[id].search.token, None)] else s.found)
  }

  datatype Action =
    | DoSearch(request: Request)
    | DoMore
    | DoHoldBack
    | DoResume(order: seq<Waiting>)
    | DoReply(id: nat, messages: Option<seq<nat>>)
    | DoFail(id: nat, emptyQuery: bool)

  ghost predicate Possible(s: State, a: Action) {
    match a
    case DoResume(order) => s.deleting && (forall w :: w in order <==> w in s.waiting)
    case DoReply(id, _) => id in s.flights
    case DoFail(id, _) => id in s.flights
    case _ => true
  }

  function Step(s: State, a: Action): State
    requires Possible(s, a)
  {
    match a
    case DoSearch(r) => Search(s, r)
    case DoMore => More(s)
    case DoHoldBack => HoldBack(s)
    case DoResume(order) => Resume(s, order)
    case DoReply(id, messages) => Reply(s, id, messages)
    case DoFail(id, emptyQuery) => Fail(s, id, emptyQuery)
  }

  // ---------- what is kept, held back or not ----------

  /** The request whose reply will be accepted asks what the fields say; nothing is on its way while held back. */
  ghost predicate Current(s: State) {
    && s.nextRequest > 0 && s.requestId < s.nextRequest
    && (forall id | id in s.flights :: 0 < id < s.nextRequest)
    && (if s.deleting then s.flights == map[] else s.waiting == {})
    && (s.requestId in s.flights ==>
          s.flights[s.requestId].asked == s.request && s.flights[s.requestId].offset == s.offsetId)
  }

  /** What sending the searches held back leaves alone, and what the last of them asks. */
  lemma {:induction false} DispatchAllKeeps(s: State, order: seq<Waiting>)
    requires s.nextRequest > 0 && s.flights == map[] && s.requestId < s.nextRequest
    ensures var t := DispatchAll(s, order);
            && t.request == s.request && t.offsetId == s.offsetId && t.cache == s.cache && t.found == s.found
            && t.deleting == s.deleting && s.nextRequest <= t.nextRequest && t.requestId < t.nextRequest
            && (forall id | id in t.flights :: s.nextRequest <= id < t.nextRequest && t.flights[id].search in order
                                            && t.flights[id].asked == s.request && t.flights[id].offset == s.offsetId)
            && (forall w | w in t.waiting :: w in s.waiting && w !in order)
    decreases |order|
  {
    if |order| > 0 {
      DispatchAllKeeps(s, order[..|order| - 1]);
      assert order == order[..|order| - 1] + [Last(order)];
    }
  }

  lemma CurrentKeeps(s: State, a: Action)
    requires Current(s) && Possible(s, a)
    ensures Current(Step(s, a))
  {
    if a.DoResume? {
      DispatchAllKeeps(s.(deleting := false), a.order);
    }
  }

  /** Each entry of the cache is the first page of a request with its key. */
  ghost predicate CacheGood(s: State) {
    forall token | token in s.cache :: s.cache[token].offset == 0 && Token(s.cache[token].asked) == token
  }

  /** A first page arrives for another key than that of the request it answers, and nothing stands under that key. */
  predicate Poisons(s: State, a: Action) {
    && a.DoReply? && a.id in s.flights && a.id == s.requestId && s.offsetId == 0
    && s.flights[a.id].search.token !in s.cache && s.flights[a.id].search.token != Token(s.request)
  }

  /** The cache goes wrong in that case, and in no other. */
  lemma CacheKeptIff(s: State, a: Action)
    requires Current(s) && CacheGood(s) && Possible(s, a)
    ensures CacheGood(Step(s, a)) <==> !Poisons(s, a)
  {
    match a {
      case DoResume(order) => DispatchAllKeeps(s.(deleting := false), order);
      case DoReply(id, messages) =>
        var f := s.flights[id];
        if id == s.requestId && s.offsetId == 0 && f.search.token !in s.cache {
          assert Step(s, a).cache[f.search.token].asked == s.request;
        }
      case _ =>
    }
  }

  /** What stands in the cache are pages of messages. */
  ghost predicate PagesThere(s: State) {
    forall token | token in s.cache :: s.cache[token].messages.Some?
  }

  /** A first page is answered with nothing changed, and nothing stands under its key. */
  predicate Blanks(s: State, a: Action) {
    && a.DoReply? && a.messages == None && a.id in s.flights && a.id == s.requestId && s.offsetId == 0
    && s.flights[a.id].search.token !in s.cache
  }

  /** Such a reply is cached as a page, which no other step does, and no step takes it out again. */
  lemma PagesKeptIff(s: State, a: Action)
    requires Current(s) && Possible(s, a)
    ensures PagesThere(Step(s, a)) <==> PagesThere(s) && !Blanks(s, a)
  {
    match a {
      case DoResume(order) => DispatchAllKeeps(s.(deleting := false), order);
      case DoReply(id, messages) =>
        var t := Step(s, a);
        assert forall token | token in s.cache :: token in t.cache && t.cache[token] == s.cache[token];
        if Blanks(s, a) {
          assert t.cache[s.flights[id].search.token].messages == None;
        }
      case _ =>
    }
  }

  // ---------- whole runs, held back or not ----------

  ghost predicate Next(s: State, t: State) {
    exists a :: Possible(s, a) && t == Step(s, a)
  }

  ghost predicate IsRun(states: seq<State>) {
    && |states| > 0 && states[0] == INITIAL
    && (forall i | 0 <= i < |states| - 1 :: Next(states[i], states[i + 1]))
  }

  lemma NextKeeps(s: State, t: State)
    requires Current(s) && GoesOn(s) && Next(s, t)
    ensures Current(t) && GoesOn(t)
  {
    var a :| Possible(s, a) && t == Step(s, a);
    CurrentKeeps(s, a);
    StepGoesOn(s, a);
  }

  lemma {:induction false} RunKeeps(states: seq<State>, i: nat)
    requires IsRun(states) && i < |states|
    ensures Current(states[i]) && GoesOn(states[i])
  {
    if i > 0 {
      RunKeeps(states, i - 1);
      assert Next(states[i - 1], states[i - 1 + 1]);
      NextKeeps(states[i - 1], states[i]);
    }
  }

  /** A step other than a first page answered with nothing changed. */
  ghost predicate NextUnblanked(s: State, t: State) {
    exists a :: Possible(s, a) && !Blanks(s, a) && t == Step(s, a)
  }

  /** A run in which no first page is answered with nothing changed. */
  ghost predicate IsRunUnblanked(states: seq<State>) {
    && |states| > 0 && states[0] == INITIAL
    && (forall i | 0 <= i < |states| - 1 :: NextUnblanked(states[i], states[i + 1]))
  }

  lemma UnblankedKeeps(s: State, t: State)
    requires Current(s) && PagesThere(s) && NextUnblanked(s, t)
    ensures Current(t) && PagesThere(t)
  {
    var a :| Possible(s, a) && !Blanks(s, a) && t == Step(s, a);
    CurrentKeeps(s, a);
    PagesKeptIff(s, a);
  }

  /** Then everything cached is a page of messages, in every state. */
  lemma {:induction false} CachedAreMessages(states: seq<State>, i: nat)
    requires IsRunUnblanked(states) && i < |states|
    ensures Current(states[i]) && PagesThere(states[i])
  {
    if i > 0 {
      CachedAreMessages(states, i - 1);
      assert NextUnblanked(states[i - 1], states[i - 1 + 1]);
      UnblankedKeeps(states[i - 1], states[i]);
    }
  }

  // ---------- where the pages begin ----------

  predicate PageEndsWith(page: Option<Page>, message: nat) {
    match page
    case Some(Page(_, _, Some(messages))) => messages != [] && messages[|messages| - 1] == message
    case _ => false
  }

  /** The last page told ends with this message. */
  ghost predicate EndsWith(found: seq<Found>, message: nat) {
    exists k | 0 <= k < |found| ::
      PageEndsWith(found[k].page, message) && forall j | k < j < |found| :: found[j].page == None
  }

  ghost predicate GoesOn(s: State) {
    s.offsetId != 0 ==> EndsWith(s.found, s.offsetId)
  }

  lemma ReceivedGoesOn(s: State, page: Page, id: nat, token: string)
    requires GoesOn(s)
    ensures GoesOn(Received(s, page, id, token))
  {
    var t := Received(s, page, id, token);
    if id == s.requestId && t.offsetId != 0 {
      assert t.found[|s.found|] == Found(token, Some(page));
    }
  }

  lemma UntoldGoesOn(s: State, token: string)
    requires GoesOn(s)
    ensures GoesOn(s.(found := s.found + [Found(token, None)]))
  {
    if s.offsetId != 0 {
      var k :| 0 <= k < |s.found| && PageEndsWith(s.found[k].page, s.offsetId)
            && forall j | k < j < |s.found| :: s.found[j].page == None;
      assert (s.found + [Found(token, None)])[k] == s.found[k];
    }
  }

  lemma SearchRequestGoesOn(s: State)
    requires GoesOn(s)
    ensures GoesOn(SearchRequest(s))
  {
    if Cached(s) {
      ReceivedGoesOn(s.(requestId := 0), s.cache[Token(s.request)], 0, Token(s.request));
    }
  }

  lemma StepGoesOn(s: State, a: Action)
    requires Current(s) && GoesOn(s) && Possible(s, a)
    ensures GoesOn(Step(s, a))
  {
    match a {
      case DoSearch(r) => SearchRequestGoesOn(s.(request := r, offsetId := 0));
      case DoMore => SearchRequestGoesOn(s);
      case DoHoldBack =>
      case DoResume(order) => DispatchAllKeeps(s.(deleting := false), order);
      case DoReply(id, messages) =>
        var f := s.flights[id];
        var t := s.(searching := 0, flights := s.flights - {id});
        ReceivedGoesOn(t, Page(f.asked, f.offset, messages), id, f.search.token);
      case DoFail(id, emptyQuery) => UntoldGoesOn(s, s.flights[id].search.token);
    }
  }

  /** In any run the awaited request begins at the start, or after the last message of the last page told. */
  lemma AwaitedGoesOn(states: seq<State>, i: nat)
    requires IsRun(states) && i < |states| && states[i].requestId in states[i].flights
    ensures var s := states[i];
            var f := s.flights[s.requestId];
            f.asked == s.request && (f.offset == 0 || EndsWith(s.found, f.offset))
  {
    RunKeeps(states, i);
  }

  /** After an awaited page of messages the next one is asked for from its last message. */
  lemma MoreGoesOn(s: State, id: nat, messages: seq<nat>)
    requires Current(s) && id in s.flights && id == s.requestId && messages != [] && messages[|messages| - 1] != 0
    ensures var t := More(Reply(s, id, Some(messages)));
            && |t.found| == |s.found| + 1 && Last(t.found).token == s.flights[id].search.token
            && Last(t.found).page == Some(Page(s.request, s.offsetId, Some(messages)))
            && t.requestId in t.flights
            && t.flights[t.requestId].asked == s.request
            && t.flights[t.requestId].offset == messages[|messages| - 1]
  {
  }

  /** After an awaited page without messages the search begins again. */
  lemma EmptyStartsAgain(s: State, id: nat, messages: Option<seq<nat>>)
    requires id in s.flights && id == s.requestId && (messages == None || messages.value == [])
    ensures Reply(s, id, messages).offsetId == 0
  {
  }

  // ---------- when a search goes out ----------

  /** While a reply is awaited nothing more is asked for. */
  lemma MoreWaits(s: State)
    requires Current(s) && s.requestId in s.flights
    ensures More(s) == s
  {
  }

  /** A search that cannot be told from the cache is handed to the queue under an id of its own, and awaited. */
  lemma SearchIsQueued(s: State, r: Request)
    requires s.nextSearch > 0 && Token(r) !in s.cache
    ensures var t := Search(s, r);
            var w := Waiting(s.nextSearch, Token(r));
            && t.request == r && t.offsetId == 0 && t.found == s.found && t.cache == s.cache
            && t.searching == s.nextSearch < t.nextSearch && More(t) == t
            && if s.deleting then w in t.waiting && t.requestId == s.requestId
               else t.requestId == s.nextRequest < t.nextRequest
                    && t.flights == s.flights[t.requestId := Flight(w, r, 0)]
  {
  }

  /** A search whose first page is cached is told at once and asks nothing. */
  lemma SearchIsTold(s: State, r: Request)
    requires Token(r) in s.cache && s.cache[Token(r)].messages.Some?
    ensures var t := Search(s, r);
            && t.found == s.found + [Found(Token(r), Some(s.cache[Token(r)]))] && t.cache == s.cache
            && t.request == r && t.requestId == 0 && t.flights == s.flights && t.waiting == s.waiting
            && t.nextSearch == s.nextSearch && t.nextRequest == s.nextRequest && t.searching == s.searching
  {
  }

  /** An awaited first page is cached for its key, unless something is; it is told either way. */
  lemma FirstPageIsKept(s: State, id: nat, messages: seq<nat>)
    requires Current(s) && id in s.flights && id == s.requestId && s.offsetId == 0
    ensures var t, f := Reply(s, id, Some(messages)), s.flights[id];
            var page := Page(f.asked, 0, Some(messages));
            && t.cache == (if f.search.token in s.cache then s.cache else s.cache[f.search.token := page])
            && t.found == s.found + [Found(f.search.token, Some(page))]
            && t.requestId == 0 && t.searching == 0 && t.flights == s.flights - {id}
  {
  }

  /** A later page is told and not cached. */
  lemma LaterPageIsTold(s: State, id: nat, messages: seq<nat>)
    requires Current(s) && id in s.flights && id == s.requestId && s.offsetId != 0
    ensures var t, f := Reply(s, id, Some(messages)), s.flights[id];
            var page := Page(f.asked, s.offsetId, Some(messages));
            && t.cache == s.cache && t.found == s.found + [Found(f.search.token, Some(page))]
            && t.requestId == 0 && t.searching == 0 && t.flights == s.flights - {id}
  {
  }

  /** A failed request is gone, and if it was the awaited one the same page can be asked for again. */
  lemma FailedIsGone(s: State, id: nat, emptyQuery: bool)
    requires Current(s) && id in s.flights
    ensures var t := Fail(s, id, emptyQuery);
            && t.flights == s.flights - {id} && t.cache == s.cache && t.offsetId == s.offsetId && t.searching == 0
            && t.found[..|s.found|] == s.found
            && t.found[|s.found|..] == (if emptyQuery then [Found(s.flights[id].search.token, None)] else [])
            && (id != s.requestId ==> t.requestId == s.requestId)
            && (id == s.requestId && s.offsetId != 0 ==>
                  var u, again := More(t), Waiting(s.nextSearch, Token(s.request));
                  u.requestId in u.flights && u.flights[u.requestId] == Flight(again, s.request, s.offsetId))
  {
  }

  function SearchesOf(flights: map<nat, Flight>): set<Waiting> {
    set id | id in flights :: flights[id].search
  }

  lemma DispatchSends(s: State, w: Waiting)
    requires forall id | id in s.flights :: id < s.nextRequest
    ensures SearchesOf(Dispatch(s, w).flights) == SearchesOf(s.flights) + {w}
  {
    var t := Dispatch(s, w);
    forall v | v in SearchesOf(s.flights)
      ensures v in SearchesOf(t.flights)
    {
      var id :| id in s.flights && s.flights[id].search == v;
      assert t.flights[id].search == v;
    }
    assert t.flights[s.nextRequest].search == w;
  }

  function Listed(order: seq<Waiting>): set<Waiting> {
    set w | w in order
  }

  lemma {:induction false} DispatchAllSends(s: State, order: seq<Waiting>)
    requires forall id | id in s.flights :: id < s.nextRequest
    ensures var t := DispatchAll(s, order);
            && (forall id | id in t.flights :: id < t.nextRequest)
            && SearchesOf(t.flights) == SearchesOf(s.flights) + Listed(order)
            && t.waiting == s.waiting - Listed(order) && t.deleting == s.deleting
    decreases |order|
  {
    if |order| > 0 {
      var init, last := order[..|order| - 1], Last(order);
      DispatchAllSends(s, init);
      assert order == init + [last];
      assert Listed(order) == Listed(init) + {last};
      DispatchSends(DispatchAll(s, init), last);
    }
  }

  /** Searches held back are not lost: what was on its way or waiting is on its way again afterwards, and no more. */
  lemma HeldBackIsSentAgain(s: State, order: seq<Waiting>)
    requires Current(s) && Possible(HoldBack(s), DoResume(order))
    ensures var held := HoldBack(s);
            && held.flights == map[] && held.waiting == s.waiting + SearchesOf(s.flights)
            && SearchesOf(Resume(held, order).flights) == s.waiting + SearchesOf(s.flights)
            && Resume(held, order).waiting == {} && !Resume(held, order).deleting
  {
    DispatchAllSends(HoldBack(s).(deleting := false), order);
    assert SearchesOf(map[]) == {} && HoldBack(s).waiting == s.waiting + SearchesOf(s.flights);
    assert Listed(order) == HoldBack(s).waiting;
  }

  /** A request handed out before that is not the one whose reply is awaited. */
  ghost predicate Stale(s: State, id: nat) {
    0 < id < s.nextRequest && id != s.requestId
  }

  lemma {:induction false} DispatchAllStale(s: State, order: seq<Waiting>, id: nat)
    requires Stale(s, id)
    ensures Stale(DispatchAll(s, order), id)
    decreases |order|
  {
    if |order| > 0 {
      DispatchAllStale(s, order[..|order| - 1], id);
    }
  }

  lemma StaleStays(s: State, a: Action, id: nat)
    requires Stale(s, id) && Possible(s, a)
    ensures Stale(Step(s, a), id)
  {
    if a.DoResume? {
      DispatchAllStale(s.(deleting := false), a.order, id);
    }
  }

  lemma {:induction false} StaleForever(states: seq<State>, i: nat, j: nat, id: nat)
    requires IsRun(states) && i <= j < |states| && Stale(states[i], id)
    ensures Stale(states[j], id)
    decreases j
  {
    if i < j {
      StaleForever(states, i, j - 1, id);
      assert Next(states[j - 1], states[j - 1 + 1]);
      var a :| Possible(states[j - 1], a) && states[j] == Step(states[j - 1], a);
      StaleStays(states[j - 1], a, id);
    }
  }

  /**
   * Once a request on its way is not the awaited one, it never is again: whenever its reply comes, nothing is told
   * and nothing is cached, and the search goes on as it was.
   */
  lemma StaleReplyChangesNothing(states: seq<State>, i: nat, j: nat, id: nat, messages: Option<seq<nat>>)
    requires IsRun(states) && i <= j < |states|
    requires id in states[i].flights && id != states[i].requestId && id in states[j].flights
    ensures var s, t := states[j], Reply(states[j], id, messages);
            && t.found == s.found && t.cache == s.cache
            && t.request == s.request && t.offsetId == s.offsetId && t.requestId == s.requestId
  {
    RunKeeps(states, i);
    StaleForever(states, i, j, id);
  }

  // ---------- searches that are never held back ----------

  /** Each request on its way asks for what it was started for. */
  ghost predicate FlightsTrue(s: State) {
    forall id | id in s.flights :: s.flights[id].search.token == Token(s.flights[id].asked)
  }

  /** Each page told is labelled by the request it answers. */
  ghost predicate FoundTrue(s: State) {
    forall i | 0 <= i < |s.found| && s.found[i].page.Some? :: s.found[i].token == Token(s.found[i].page.value.asked)
  }

  ghost predicate Truthful(s: State) {
    !s.deleting && Current(s) && CacheGood(s) && FlightsTrue(s) && FoundTrue(s)
  }

  lemma ReceivedTrue(s: State, page: Page, id: nat, token: string)
    requires FoundTrue(s) && token == Token(page.asked)
    ensures FoundTrue(Received(s, page, id, token)) && Received(s, page, id, token).flights == s.flights
    ensures Received(s, page, id, token).deleting == s.deleting
  {
  }

  lemma SearchRequestTrue(s: State)
    requires FlightsTrue(s) && FoundTrue(s) && CacheGood(s)
    ensures FlightsTrue(SearchRequest(s)) && FoundTrue(SearchRequest(s)) && SearchRequest(s).deleting == s.deleting
  {
    if Cached(s) {
      ReceivedTrue(s.(requestId := 0), s.cache[Token(s.request)], 0, Token(s.request));
    }
  }

  lemma ReplyTrue(s: State, id: nat, messages: Option<seq<nat>>)
    requires FlightsTrue(s) && FoundTrue(s) && id in s.flights
    ensures FlightsTrue(Reply(s, id, messages)) && FoundTrue(Reply(s, id, messages))
    ensures Reply(s, id, messages).deleting == s.deleting
  {
    var f := s.flights[id];
    var t := s.(searching := 0, flights := s.flights - {id});
    ReceivedTrue(t, Page(f.asked, f.offset, messages), id, f.search.token);
  }

  lemma TruthfulKeeps(s: State, a: Action)
    requires Truthful(s) && Possible(s, a) && !a.DoHoldBack?
    ensures Truthful(Step(s, a))
  {
    CurrentKeeps(s, a);
    CacheKeptIff(s, a);
    StepTrue(s, a);
  }

  lemma StepTrue(s: State, a: Action)
    requires Truthful(s) && Possible(s, a) && !a.DoHoldBack?
    ensures FlightsTrue(Step(s, a)) && FoundTrue(Step(s, a)) && !Step(s, a).deleting
    ensures !Poisons(s, a)
  {
    match a {
      case DoSearch(r) => SearchRequestTrue(s.(request := r, offsetId := 0));
      case DoMore => SearchRequestTrue(s);
      case DoReply(id, messages) => ReplyTrue(s, id, messages);
      case DoFail(id, emptyQuery) =>
    }
  }

  ghost predicate NextAtOnce(s: State, t: State) {
    exists a :: Possible(s, a) && !a.DoHoldBack? && t == Step(s, a)
  }

  /** A run in which every search is sent at once. */
  ghost predicate IsRunAtOnce(states: seq<State>) {
    && |states| > 0 && states[0] == INITIAL
    && (forall i | 0 <= i < |states| - 1 :: NextAtOnce(states[i], states[i + 1]))
  }

  lemma {:induction false} ReachableAtOnce(states: seq<State>, i: nat)
    requires IsRunAtOnce(states) && i < |states|
    ensures Truthful(states[i])
  {
    if i > 0 {
      ReachableAtOnce(states, i - 1);
      assert NextAtOnce(states[i - 1], states[i - 1 + 1]);
      var a :| Possible(states[i - 1], a) && !a.DoHoldBack? && states[i] == Step(states[i - 1], a);
      TruthfulKeeps(states[i - 1], a);
    }
  }

  /**
   * When searches are sent at once and no text has line breaks, what is cached for a request is the first page of that
   * very request, up to the topic.
   */
  lemma CacheIsExact(states: seq<State>, i: nat, r: Request)
    requires IsRunAtOnce(states) && i < |states| && Token(r) in states[i].cache
    requires Plain(r) && Plain(states[i].cache[Token(r)].asked)
    ensures var page := states[i].cache[Token(r)];
            page.offset == 0 && page.asked == r.(topMsgId := page.asked.topMsgId)
  {
    ReachableAtOnce(states, i);
    TokenInjective(states[i].cache[Token(r)].asked, r);
  }

  // ---------- what does happen otherwise ----------

  /** The first search of all, and its reply. */
  lemma FirstPage(r: Request, messages: Option<seq<nat>>) returns (s: State, t: State)
    ensures NextAtOnce(INITIAL, s) && NextAtOnce(s, t) && Truthful(t)
    ensures t.cache == map[Token(r) := Page(r, 0, messages)] && t.flights == map[] && t.waiting == {}
    ensures t.nextRequest == 2 && t.requestId == 0 && t.found == [Told(Page(r, 0, messages), Token(r))]
  {
    assert Truthful(INITIAL);
    s := Step(INITIAL, DoSearch(r));
    TruthfulKeeps(INITIAL, DoSearch(r));
    t := Step(s, DoReply(1, messages));
    TruthfulKeeps(s, DoReply(1, messages));
  }

  /** The topic is not part of the key: a search in one topic is answered with the page of another. */
  lemma TopicsShareAPage(r: Request, topic: nat, messages: seq<nat>) returns (states: seq<State>)
    requires r.topMsgId != topic
    ensures IsRunAtOnce(states) && Last(states).request == r.(topMsgId := topic)
    ensures |Last(states).found| == 2 && Last(states).found[1].page == Some(Page(r, 0, Some(messages)))
  {
    var s, t := FirstPage(r, Some(messages));
    assert KeyLines(r.(topMsgId := topic)) == KeyLines(r);
    var u := Step(t, DoSearch(r.(topMsgId := topic)));
    assert NextAtOnce(t, u);
    states := [INITIAL, s, t, u];
  }

  /**
   * A first page that is answered with nothing changed, as no server should for a hash of zero, is cached like any
   * other: the same search finds nothing from then on.
   */
  lemma NotModifiedIsKept(r: Request) returns (states: seq<State>)
    ensures IsRunAtOnce(states) && Last(states).request == r
    ensures Last(states).found == [Found("", None), Found("", None)] && Last(states).flights == map[]
  {
    var s, t := FirstPage(r, None);
    assert t.found == [Found("", None)] && Cached(t.(request := r, offsetId := 0));
    var u := Step(t, DoSearch(r));
    assert NextAtOnce(t, u);
    states := [INITIAL, s, t, u];
  }

  /** While held back: a search is started, and then one whose cached first page is empty. */
  lemma SearchesHeldBack(s: State, a: Request, b: Request) returns (t: State, u: State, v: State)
    requires s.cache == map[Token(b) := Page(b, 0, Some([]))] && s.flights == map[] && s.waiting == {}
    requires Token(a) != Token(b)
    ensures Next(s, t) && Next(t, u) && Next(u, v)
    ensures v.cache == s.cache && v.deleting && v.waiting == {Waiting(s.nextSearch, Token(a))} && v.flights == map[]
    ensures v.request == b && v.offsetId == 0 && v.requestId == 0 && v.nextRequest == s.nextRequest
  {
    t := Step(s, DoHoldBack);
    u := Step(t, DoSearch(a));
    v := Step(u, DoSearch(b));
  }

  lemma ResumedPoisons(s: State, b: Request, w: Waiting, message: nat) returns (t: State, u: State)
    requires s.cache == map[Token(b) := Page(b, 0, Some([]))] && s.deleting && s.waiting == {w} && s.flights == map[]
    requires s.request == b && s.offsetId == 0 && w.token != Token(b)
    ensures Next(s, t) && Next(t, u)
    ensures w.token in u.cache && u.cache[w.token].asked == b && !CacheGood(u)
  {
    assert [w][..|[w]| - 1] == [];
    t := Step(s, DoResume([w]));
    assert DispatchAll(s.(deleting := false), []) == s.(deleting := false);
    assert t == Dispatch(s.(deleting := false), w);
    u := Step(t, DoReply(s.nextRequest, Some([message])));
    assert u.cache[w.token].asked == b;
  }

  /**
   * A search held back asks, in the end, for what the user searches by then: the page of one search is stored under
   * the key of another.
   */
  lemma HeldBackPoisons(a: Request, b: Request, message: nat)
    returns (s1: State, s2: State, s3: State, s4: State, s5: State, s6: State, s7: State)
    requires Token(a) != Token(b)
    ensures Next(INITIAL, s1) && Next(s1, s2) && Next(s2, s3) && Next(s3, s4)
    ensures Next(s4, s5) && Next(s5, s6) && Next(s6, s7)
    ensures Token(a) in s7.cache && s7.cache[Token(a)].asked == b && !CacheGood(s7)
  {
    s1, s2 := FirstPage(b, Some([]));
    AtOnceIsNext(INITIAL, s1);
    AtOnceIsNext(s1, s2);
    s3, s4, s5 := SearchesHeldBack(s2, a, b);
    s6, s7 := ResumedPoisons(s5, b, Waiting(s2.nextSearch, Token(a)), message);
  }

  lemma AtOnceIsNext(s: State, t: State)
    requires NextAtOnce(s, t)
    ensures Next(s, t)
  {
    var a :| Possible(s, a) && !a.DoHoldBack? && t == Step(s, a);
  }

  // ---------- the client ----------

  class Client {
    var request: Request
    var offsetId: nat
    var requestId: nat
    var searchInHistoryRequest: nat
    var cacheOfStartByToken: map<string, Page>
    var messagesFounds: seq<Found>
    var deleting: bool
    var nextSearch: nat
    var nextRequest: nat
    ghost var waiting: set<Waiting>
    ghost var flights: map<nat, Flight>

    ghost function Value(): State
      reads this
    {
      State(request, offsetId, requestId, searchInHistoryRequest, cacheOfStartByToken, deleting, waiting, flights,
            messagesFounds, nextSearch, nextRequest)
    }

    /** The search as the queue runs it: it reads the fields when it is run. */
    method Send(ghost w: Waiting)
      modifies this`requestId, this`nextRequest, this`waiting, this`flights
      ensures Value() == Dispatch(old(Value()), w)
    {
      flights := flights[nextRequest := Flight(w, request, offsetId)];
      waiting := waiting - {w};
      requestId := nextRequest;
      nextRequest := nextRequest + 1;
    }

    method SearchReceived(page: Page, id: nat, nextToken: string)
      modifies this`cacheOfStartByToken, this`requestId, this`offsetId, this`messagesFounds
      ensures Value() == Received(old(Value()), page, id, nextToken)
    {
      if id != requestId {
        return;
      }
      if offsetId == 0 && nextToken !in cacheOfStartByToken {
        cacheOfStartByToken := cacheOfStartByToken[nextToken := page];
      }
      requestId := 0;
      match page.messages {
        case None =>
          offsetId := 0;
          messagesFounds := messagesFounds + [Found("", None)];
        case Some(messages) =>
          offsetId := if messages == [] then 0 else messages[|messages| - 1];
          messagesFounds := messagesFounds + [Found(nextToken, Some(page))];
      }
    }

    method RunSearch()
      modifies this
      ensures Value() == SearchRequest(old(Value()))
    {
      var nextToken := RequestToToken(request);
      if offsetId == 0 && nextToken in cacheOfStartByToken {
        requestId := 0;
        SearchReceived(cacheOfStartByToken[nextToken], requestId, nextToken);
        return;
      }
      ghost var w := Waiting(nextSearch, nextToken);
      waiting := waiting + {w};
      searchInHistoryRequest := nextSearch;
      nextSearch := nextSearch + 1;
      if !deleting {
        Send(w);
      }
    }

    method SearchMessages(r: Request)
      modifies this
      ensures Value() == Search(old(Value()), r)
    {
      request := r;
      offsetId := 0;
      RunSearch();
    }

    method SearchMore()
      modifies this
      ensures Value() == More(old(Value()))
    {
      if searchInHistoryRequest != 0 || requestId != 0 {
        return;
      }
      RunSearch();
    }

    method Replied(page: Page, id: nat, nextToken: string)
      requires id in flights && page.asked == flights[id].asked && page.offset == flights[id].offset
      requires nextToken == flights[id].search.token
      modifies this
      ensures Value() == Reply(old(Value()), id, page.messages)
    {
      flights := flights - {id};
      searchInHistoryRequest := 0;
      SearchReceived(page, id, nextToken);
    }

    method Failed(id: nat, nextToken: string, emptyQuery: bool)
      requires id in flights && nextToken == flights[id].search.token
      modifies this
      ensures Value() == Fail(old(Value()), id, emptyQuery)
    {
      flights := flights - {id};
      searchInHistoryRequest := 0;
      if requestId == id {
        requestId := 0;
      }
      if emptyQuery {
        messagesFounds := messagesFounds + [Found(nextToken, None)];
      }
    }
  }
}
