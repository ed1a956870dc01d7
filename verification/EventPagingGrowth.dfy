/** Following the pages of a query while the chain grows: every call sees another view. */
module EventPagingGrowth {
  import opened Primitives
  import opened TransactionHash
  import opened Blocks
  import opened ContinuationToken
  import opened EventPaging

  // ----- Ranges that end at or below the latest block

  /** The confirmed blocks of `view` are also in `view'`, which may have more. */
  ghost predicate Extends(view: ChainView, view': ChainView) {
    && view.latest.Some? && view'.latest.Some? && view.latest.value <= view'.latest.value
    && (forall h | h in view.numbers :: h in view'.numbers && view'.numbers[h] == view.numbers[h])
    && forall n | 0 <= n <= view.latest.value ::
         BlockEvents(view', view'.latest.value, n) == BlockEvents(view, view.latest.value, n)
  }

  /** The range of a query in both views: the same start, ends among the confirmed blocks, the new blocks there. */
  ghost predicate Settled(view: ChainView, view': ChainView, q: Query) {
    && ValidView(view) && ValidView(view') && Extends(view, view')
    && BlockRange(view, q.fromBlock, q.toBlock).Ok? && BlockRange(view', q.fromBlock, q.toBlock).Ok?
    && var r, r' := BlockRange(view, q.fromBlock, q.toBlock).value, BlockRange(view', q.fromBlock, q.toBlock).value;
       && r.from == r'.from
       && r.last <= r.latest && r'.last <= r'.latest && r.last <= r'.last
       && Available(view', r'.latest, r.last + 1, r'.last)
  }

  lemma {:induction false} AllEventsExtend(view: ChainView, view': ChainView, n: nat, last: nat, last': nat)
    requires Extends(view, view') && last <= view.latest.value && last <= last' && n <= last + 1
    requires Available(view, view.latest.value, n, last)
    requires Available(view', view'.latest.value, last + 1, last')
    ensures Available(view', view'.latest.value, n, last')
    ensures AllEvents(view', view'.latest.value, n, last')
         == AllEvents(view, view.latest.value, n, last) + AllEvents(view', view'.latest.value, last + 1, last')
    decreases last + 1 - n
  {
    var latest, latest' := view.latest.value, view'.latest.value;
    if n <= last {
      assert BlockEvents(view', latest', n) == BlockEvents(view, latest, n) && BlockEvents(view, latest, n).Ok?;
      AllEventsExtend(view, view', n + 1, last, last');
      Assoc(BlockEvents(view, latest, n).value, AllEvents(view, latest, n + 1, last),
            AllEvents(view', latest', last + 1, last'));
    }
  }

  /** The matching events of the blocks that the range has gained. */
  ghost function NewEvents(view: ChainView, view': ChainView, q: Query): seq<EmittedEvent>
    requires Settled(view, view', q)
  {
    var last := BlockRange(view, q.fromBlock, q.toBlock).value.last;
    var r' := BlockRange(view', q.fromBlock, q.toBlock).value;
    Matching(q.filter, AllEvents(view', r'.latest, last + 1, r'.last))
  }

  lemma DropConcat<T>(a: seq<T>, b: seq<T>, k: nat)
    requires k <= |a|
    ensures (a + b)[k..] == a[k..] + b
  {
  }

  lemma RestExtends(view: ChainView, view': ChainView, f: Filter, n: nat, last: nat, last': nat, skip: nat)
    requires Extends(view, view') && last <= view.latest.value && last <= last'
    requires Available(view, view.latest.value, n, last) && Position(view, f, view.latest.value, n, last, skip)
    requires Available(view', view'.latest.value, last + 1, last')
    ensures Available(view', view'.latest.value, n, last')
    ensures Position(view', f, view'.latest.value, n, last', skip)
    ensures Rest(view', f, view'.latest.value, n, last', skip)
         == Rest(view, f, view.latest.value, n, last, skip)
            + Matching(f, AllEvents(view', view'.latest.value, last + 1, last'))
  {
    var latest, latest' := view.latest.value, view'.latest.value;
    AllEventsExtend(view, view', n, last, last');
    var seen, more := AllEvents(view, latest, n, last), AllEvents(view', latest', last + 1, last');
    MatchingConcat(f, seen, more);
    AtLeast(view, f, latest, n, last);
    DropConcat(Matching(f, seen), Matching(f, more), skip);
  }

  /** A query goes on in the new view where it was, and finds the same events, followed by the new ones. */
  lemma GrowthExtends(view: ChainView, view': ChainView, q: Query)
    requires Good(view, q) && Settled(view, view', q)
    requires var r := BlockRange(view, q.fromBlock, q.toBlock).value; r.from <= r.last
    ensures Good(view', q) && Remaining(view', q) == Remaining(view, q) + NewEvents(view, view', q)
  {
    var r, r' := BlockRange(view, q.fromBlock, q.toBlock).value, BlockRange(view', q.fromBlock, q.toBlock).value;
    var (n, skip) := Start(q, r.from).value;
    RestExtends(view, view', q.filter, n, r.last, r'.last, skip);
  }

  lemma AtLeast(view: ChainView, f: Filter, latest: nat, n: nat, last: nat)
    requires n <= last && Available(view, latest, n, last)
    ensures BlockEvents(view, latest, n).Ok?
    ensures |Matching(f, BlockEvents(view, latest, n).value)| <= |Matching(f, AllEvents(view, latest, n, last))|
  {
    assert BlockEvents(view, latest, n).Ok?;
    MatchingConcat(f, BlockEvents(view, latest, n).value, AllEvents(view, latest, n + 1, last));
  }

  /** The k-th call of a session sees the k-th view. Every view extends the ones before. */
  ghost predicate Session(views: seq<ChainView>, q: Query) {
    views != [] && forall i, j | 0 <= i < j < |views| :: Settled(views[i], views[j], q)
  }

  lemma PageExists(view: ChainView, q: Query)
    requires Good(view, q)
    ensures GetEventsSpec(view, q).Ok?
  {
    PageMeaning(view, q);
  }

  /** The query that continues after the first page. */
  function Next(view: ChainView, q: Query): Query
    requires ValidView(view) && GetEventsSpec(view, q).Ok?
  {
    q.(continuationToken := GetEventsSpec(view, q).value.continuationToken)
  }

  lemma SettledNext(view: ChainView, view': ChainView, q: Query, token: Option<string>)
    requires Settled(view, view', q)
    ensures Settled(view, view', q.(continuationToken := token))
    ensures NewEvents(view, view', q.(continuationToken := token)) == NewEvents(view, view', q)
  {
  }

  /** `q'` goes on after the page with `events`, the first one of `q`. */
  ghost predicate ContinuesAfter(view: ChainView, q: Query, events: seq<EmittedEvent>, q': Query) {
    && Good(view, q) && Good(view, q') && q' == q.(continuationToken := q'.continuationToken)
    && 0 < q.chunkSize <= |Remaining(view, q)|
    && events == Remaining(view, q)[..q.chunkSize]
    && Remaining(view, q') == Remaining(view, q)[q.chunkSize..]
  }

  lemma PageContinues(view: ChainView, q: Query)
    requires Good(view, q) && GetEventsSpec(view, q).Ok? && GetEventsSpec(view, q).value.continuationToken.Some?
    ensures ContinuesAfter(view, q, GetEventsSpec(view, q).value.events, Next(view, q))
  {
    PageMeaning(view, q);
  }

  /** A page of the old view and what follows it in the new view make up what the new view has. */
  lemma PageThenGrowth(view: ChainView, view': ChainView, q: Query, events: seq<EmittedEvent>, q': Query)
    requires ContinuesAfter(view, q, events, q') && Settled(view, view', q)
    ensures Good(view', q) && Good(view', q') && Remaining(view', q) == events + Remaining(view', q')
  {
    SettledNext(view, view', q, q'.continuationToken);
    GrowthExtends(view, view', q);
    GrowthExtends(view, view', q');
    SplitPage(Remaining(view, q), q.chunkSize, NewEvents(view, view', q));
  }

  lemma SessionNext(views: seq<ChainView>, q: Query, token: Option<string>)
    requires Session(views, q) && |views| > 1
    ensures Session(views[1..], q.(continuationToken := token))
  {
    forall i, j | 0 <= i < j < |views[1..]|
      ensures Settled(views[1..][i], views[1..][j], q.(continuationToken := token))
    {
      SettledNext(views[i + 1], views[j + 1], q, token);
    }
  }

  lemma SplitPage<T>(rest: seq<T>, c: nat, more: seq<T>)
    requires c <= |rest|
    ensures rest + more == rest[..c] + (rest[c..] + more)
  {
    assert rest == rest[..c] + rest[c..];
  }

  /** The pages of a session, until there is no token or no call any more. */
  ghost function SessionPages(views: seq<ChainView>, q: Query): (pages: seq<EventsPage>)
    requires Session(views, q) && Good(views[0], q)
    ensures 0 < |pages| <= |views|
    decreases |views|
  {
    PageExists(views[0], q);
    var page := GetEventsSpec(views[0], q).value;
    if page.continuationToken.None? || |views| == 1 then [page]
    else
      SessionNext(views, q, page.continuationToken);
      PageContinues(views[0], q);
      PageThenGrowth(views[0], views[1], q, page.events, Next(views[0], q));
      [page] + SessionPages(views[1..], Next(views[0], q))
  }

  /** The pages are a prefix of `all`, and all of it if they have come to their end. */
  ghost predicate PagesFrom(pages: seq<EventsPage>, all: seq<EmittedEvent>) {
    && pages != []
    && Concat(pages) <= all
    && (pages[|pages| - 1].continuationToken.None? ==> Concat(pages) == all)
  }

  lemma OnePage(page: EventsPage, all: seq<EmittedEvent>)
    requires page.events <= all && (page.continuationToken.None? ==> page.events == all)
    ensures PagesFrom([page], all)
  {
    assert Concat([page]) == page.events + Concat([page][1..]) == page.events;
  }

  lemma OneMorePage(page: EventsPage, more: seq<EventsPage>, rest: seq<EmittedEvent>)
    requires PagesFrom(more, rest)
    ensures PagesFrom([page] + more, page.events + rest)
  {
    assert ([page] + more)[1..] == more;
  }

  /**
    No token is refused, nothing is missed and nothing comes twice: a session that has run to its end has
    returned the events of the range as its last call saw it, and one that has not, a prefix of them.
   */
  lemma {:induction false} SessionIsComplete(views: seq<ChainView>, q: Query)
    requires Session(views, q) && Good(views[0], q)
    ensures var pages := SessionPages(views, q);
            Good(views[|pages| - 1], q) && PagesFrom(pages, Remaining(views[|pages| - 1], q))
    decreases |views|
  {
    PageExists(views[0], q);
    var page := GetEventsSpec(views[0], q).value;
    if page.continuationToken.None? || |views| == 1 {
      PageMeaning(views[0], q);
      OnePage(page, Remaining(views[0], q));
    } else {
      var q' := Next(views[0], q);
      SessionNext(views, q, page.continuationToken);
      PageContinues(views[0], q);
      PageThenGrowth(views[0], views[1], q, page.events, q');
      SessionIsComplete(views[1..], q');
      var more := SessionPages(views[1..], q');
      var last := views[|more|];
      assert SessionPages(views, q) == [page] + more && last == views[1..][|more| - 1];
      PageThenGrowth(views[0], last, q, page.events, q');
      OneMorePage(page, more, Remaining(last, q'));
    }
  }

  /** The ends of a range that do not move, or move with the latest block. */
  ghost predicate FixedEnd(view: ChainView, id: Option<BlockId>) {
    match id
    case None => true
    case Some(Number(_)) => true
    case Some(Hash(h)) => h in view.numbers
    case Some(_) => false
  }

  /** Fixed ends at or below the latest block: the range is the same in both views, and so are its events. */
  lemma FixedRange(view: ChainView, view': ChainView, q: Query)
    requires ValidView(view) && ValidView(view') && Extends(view, view')
    requires FixedEnd(view, q.fromBlock) && FixedEnd(view, q.toBlock)
    requires RangeEnd(view, view.latest.value, q.toBlock).value <= view.latest.value
    ensures Settled(view, view', q) && NewEvents(view, view', q) == []
  {
  }

  /** A range up to the latest block: the range of the new view ends at its own latest block. */
  lemma RangeToLatest(view: ChainView, view': ChainView, q: Query)
    requires ValidView(view) && ValidView(view') && Extends(view, view')
    requires FixedEnd(view, q.fromBlock) && q.toBlock == Some(Latest)
    requires Available(view', view'.latest.value, view.latest.value + 1, view'.latest.value)
    ensures Settled(view, view', q)
    ensures BlockRange(view', q.fromBlock, q.toBlock).value.last == view'.latest.value
  {
  }

  ghost predicate GrowingChain(views: seq<ChainView>) {
    && views != []
    && (forall i | 0 <= i < |views| :: ValidView(views[i]))
    && forall i, j | 0 <= i < j < |views| :: Extends(views[i], views[j])
  }

  /** An empty range is answered by one page. */
  lemma EndedOrStarted(views: seq<ChainView>, q: Query)
    requires Session(views, q) && Good(views[0], q)
    ensures var r := BlockRange(views[0], q.fromBlock, q.toBlock).value;
            r.from > r.last ==> |SessionPages(views, q)| == 1
  {
  }

  /** Fixed ends at or below the first latest block: the pages are those of the first view, however the chain grows. */
  lemma {:induction false} FixedSession(views: seq<ChainView>, q: Query)
    requires GrowingChain(views) && Good(views[0], q) && q.continuationToken == None
    requires FixedEnd(views[0], q.fromBlock) && FixedEnd(views[0], q.toBlock)
    requires RangeEnd(views[0], views[0].latest.value, q.toBlock).value <= views[0].latest.value
    ensures Session(views, q)
    ensures var Range(from, last, latest) := BlockRange(views[0], q.fromBlock, q.toBlock).value;
            PagesFrom(SessionPages(views, q), Matching(q.filter, AllEvents(views[0], latest, from, last)))
  {
    forall i, j | 0 <= i < j < |views| ensures Settled(views[i], views[j], q) {
      assert i > 0 ==> Extends(views[0], views[i]);
      FixedRange(views[i], views[j], q);
    }
    SessionIsComplete(views, q);
    EndedOrStarted(views, q);
    var k := |SessionPages(views, q)| - 1;
    if k > 0 {
      FixedRange(views[0], views[k], q);
      GrowthExtends(views[0], views[k], q);
      assert Remaining(views[0], q) + [] == Remaining(views[0], q);
    }
  }

  /** Up to the latest block: the pages are those of the view of the last call, up to its latest block. */
  lemma {:induction false} LatestSession(views: seq<ChainView>, q: Query)
    requires GrowingChain(views) && Good(views[0], q) && q.continuationToken == None
    requires FixedEnd(views[0], q.fromBlock) && q.toBlock == Some(Latest)
    requires forall i, j | 0 <= i < j < |views| ::
               Available(views[j], views[j].latest.value, views[i].latest.value + 1, views[j].latest.value)
    ensures Session(views, q)
    ensures var view := views[|SessionPages(views, q)| - 1];
            && Good(view, q)
            && var Range(from, last, latest) := BlockRange(view, q.fromBlock, q.toBlock).value;
               && last == latest
               && PagesFrom(SessionPages(views, q), Matching(q.filter, AllEvents(view, latest, from, latest)))
  {
    forall i, j | 0 <= i < j < |views| ensures Settled(views[i], views[j], q) {
      assert i > 0 ==> Extends(views[0], views[i]);
      RangeToLatest(views[i], views[j], q);
    }
    SessionIsComplete(views, q);
  }

  // ----- Ranges that reach the pending block

  /** The matching events of the blocks from, ..., n - 1 and the first `skip` ones of block n. */
  ghost function Delivered(view: ChainView, f: Filter, latest: nat, from: nat, n: nat, skip: nat): seq<EmittedEvent>
    requires Available(view, latest, from, n) && from <= n
    requires BlockEvents(view, latest, n).Ok? && skip <= |Matching(f, BlockEvents(view, latest, n).value)|
    decreases n - from
  {
    if from == n then Matching(f, BlockEvents(view, latest, n).value)[..skip]
    else Matching(f, BlockEvents(view, latest, from).value) + Delivered(view, f, latest, from + 1, n, skip)
  }

  lemma {:induction false} DeliveredAndRest(view: ChainView, f: Filter, latest: nat, from: nat, n: nat, skip: nat,
                                            last: nat)
    requires Available(view, latest, from, last) && from <= n && Position(view, f, latest, n, last, skip)
    ensures Available(view, latest, from, n)
    ensures Delivered(view, f, latest, from, n, skip) + Rest(view, f, latest, n, last, skip)
         == Matching(f, AllEvents(view, latest, from, last))
    decreases n - from
  {
    assert BlockEvents(view, latest, from).Ok?;
    if from == n {
      AtLeast(view, f, latest, n, last);
      var here, all := Matching(f, BlockEvents(view, latest, n).value), Matching(f, AllEvents(view, latest, n, last));
      MatchingConcat(f, BlockEvents(view, latest, n).value, AllEvents(view, latest, n + 1, last));
      assert here[..skip] == all[..skip];
      assert all == all[..skip] + all[skip..];
    } else {
      DeliveredAndRest(view, f, latest, from + 1, n, skip, last);
      var here, later := BlockEvents(view, latest, from).value, AllEvents(view, latest, from + 1, last);
      MatchingConcat(f, here, later);
      Assoc(Matching(f, here), Delivered(view, f, latest, from + 1, n, skip), Rest(view, f, latest, n, last, skip));
    }
  }

  lemma SameBefore<T>(a: seq<T>, b: seq<T>, c: seq<T>)
    ensures a + c == b + c <==> a == b
  {
    if a + c == b + c {
      assert |a| == |b|;
      assert a == (a + c)[..|a|] && b == (b + c)[..|b|];
    }
  }

  /** The page of a fresh query is what the view has in front of the page's token. */
  lemma PageIsDelivered(view: ChainView, q: Query)
    requires Good(view, q) && q.continuationToken == None
    requires GetEventsSpec(view, q).Ok? && GetEventsSpec(view, q).value.continuationToken.Some?
    ensures var Range(from, last, latest) := BlockRange(view, q.fromBlock, q.toBlock).value;
            && Good(view, Next(view, q))
            && var (n, skip) := Start(Next(view, q), from).value;
               && from <= n && from <= last && Available(view, latest, from, n)
               && Position(view, q.filter, latest, n, last, skip)
               && GetEventsSpec(view, q).value.events == Delivered(view, q.filter, latest, from, n, skip)
  {
    var Range(from, last, latest) := BlockRange(view, q.fromBlock, q.toBlock).value;
    PageMeaning(view, q);
    ScanEnd(view, q.filter, latest, from, last, 0, q.chunkSize);
    RangeBounds(view, q);
    var next := Scan(view, q.filter, latest, from, last, 0, q.chunkSize).value.next.value;
    ParseOfPrint(Token(next.0, next.1));
    DeliveredAndRest(view, q.filter, latest, from, next.0, next.1, last);
    var rest := Remaining(view, q);
    assert rest == rest[..q.chunkSize] + rest[q.chunkSize..];
    SameBefore(rest[..q.chunkSize], Delivered(view, q.filter, latest, from, next.0, next.1), rest[q.chunkSize..]);
  }

  // ----- Events without their place in the chain

  /** Confirming a block changes hash and number of its events, and may change transaction hashes; not the rest. */
  function Body(e: EmittedEvent): Event {
    Event(e.fromAddress, e.keys, e.data)
  }

  function Bodies(es: seq<EmittedEvent>): (r: seq<Event>)
    ensures |r| == |es| && forall k | 0 <= k < |es| :: r[k] == Body(es[k])
  {
    seq(|es|, k requires 0 <= k < |es| => Body(es[k]))
  }

  lemma BodiesConcat(a: seq<EmittedEvent>, b: seq<EmittedEvent>)
    ensures Bodies(a + b) == Bodies(a) + Bodies(b)
  {
  }

  /** Filters look at address and keys only. */
  lemma BodyMatches(f: Filter, a: EmittedEvent, b: EmittedEvent)
    requires Body(a) == Body(b)
    ensures EventMatches(f, a) <==> EventMatches(f, b)
  {
    assert a.fromAddress == b.fromAddress && a.keys == b.keys;
  }

  lemma {:induction false} BodiesMatching(f: Filter, a: seq<EmittedEvent>, b: seq<EmittedEvent>)
    requires Bodies(a) == Bodies(b)
    ensures Bodies(Matching(f, a)) == Bodies(Matching(f, b))
  {
    if a != [] {
      assert Body(a[0]) == Bodies(a)[0] == Bodies(b)[0] == Body(b[0]);
      assert Bodies(a[1..]) == Bodies(a)[1..] && Bodies(b[1..]) == Bodies(b)[1..];
      BodiesMatching(f, a[1..], b[1..]);
      BodyMatches(f, a[0], b[0]);
      BodiesConcat([a[0]], Matching(f, a[1..]));
      BodiesConcat([b[0]], Matching(f, b[1..]));
    }
  }

  /** The events of a pending block have neither hash nor number, those of a confirmed block have both. */
  ghost predicate Produced(view: ChainView) {
    && (forall n, k | n in view.blocks && 0 <= k < |view.blocks[n]| ::
          view.blocks[n][k].blockHash.Some? && view.blocks[n][k].blockNumber.Some?)
    && (view.pending.Some? ==> forall k | 0 <= k < |view.pending.value| ::
          view.pending.value[k].blockHash.None? && view.pending.value[k].blockNumber.None?)
  }

  // ----- A token that is used in another view

  /** The matching events of a block, without their place. */
  ghost function MatchingBodies(view: ChainView, f: Filter, latest: nat, n: nat): seq<Event>
    requires BlockEvents(view, latest, n).Ok?
  {
    Bodies(Matching(f, BlockEvents(view, latest, n).value))
  }

  ghost predicate SameBlock(view: ChainView, view': ChainView, latest: nat, latest': nat, k: nat) {
    && BlockEvents(view, latest, k).Ok? && BlockEvents(view', latest', k).Ok?
    && Bodies(BlockEvents(view, latest, k).value) == Bodies(BlockEvents(view', latest', k).value)
  }

  lemma {:induction false} DeliveredAgrees(view: ChainView, view': ChainView, f: Filter, latest: nat, latest': nat,
                                           from: nat, n: nat, skip: nat)
    requires from <= n && Available(view, latest, from, n) && Available(view', latest', from, n)
    requires forall k | from <= k < n :: SameBlock(view, view', latest, latest', k)
    requires Position(view, f, latest, n, n, skip) && Position(view', f, latest', n, n, skip)
    ensures (Bodies(Delivered(view, f, latest, from, n, skip)) == Bodies(Delivered(view', f, latest', from, n, skip)))
       <==> (MatchingBodies(view, f, latest, n)[..skip] == MatchingBodies(view', f, latest', n)[..skip])
    decreases n - from
  {
    if from < n {
      assert SameBlock(view, view', latest, latest', from);
      var a, a' := BlockEvents(view, latest, from).value, BlockEvents(view', latest', from).value;
      var d, d' := Delivered(view, f, latest, from + 1, n, skip), Delivered(view', f, latest', from + 1, n, skip);
      DeliveredAgrees(view, view', f, latest, latest', from + 1, n, skip);
      BodiesMatching(f, a, a');
      BodiesConcat(Matching(f, a), d);
      BodiesConcat(Matching(f, a'), d');
      SameAfter(Bodies(Matching(f, a)), Bodies(d), Bodies(d'));
    } else {
      assert Bodies(Delivered(view, f, latest, n, n, skip)) == MatchingBodies(view, f, latest, n)[..skip];
      assert Bodies(Delivered(view', f, latest', n, n, skip)) == MatchingBodies(view', f, latest', n)[..skip];
    }
  }

  /** A token of a page, used in a view that has the blocks of the range from the token on. */
  ghost predicate Reachable(view: ChainView, q: Query) {
    && ValidView(view)
    && |q.filter.keys| <= MAX_EVENTS_KEYS && 1 <= q.chunkSize <= MAX_EVENTS_CHUNK_SIZE
    && BlockRange(view, q.fromBlock, q.toBlock).Ok?
    && var Range(from, last, latest) := BlockRange(view, q.fromBlock, q.toBlock).value;
       && from <= last && Start(q, from).Ok?
       && Available(view, latest, Start(q, from).value.0, last)
  }

  /** A token of the range is accepted exactly if its block has at least as many matching events as were read. */
  lemma TokenAccepted(view: ChainView, q: Query)
    requires Reachable(view, q)
    requires var r := BlockRange(view, q.fromBlock, q.toBlock).value; Start(q, r.from).value.0 <= r.last
    ensures var r := BlockRange(view, q.fromBlock, q.toBlock).value;
            var (n, skip) := Start(q, r.from).value;
            && BlockEvents(view, r.latest, n).Ok?
            && (Good(view, q) <==> skip <= |Matching(q.filter, BlockEvents(view, r.latest, n).value)|)
            && (GetEventsSpec(view, q).Ok? <==> Good(view, q))
            && (!Good(view, q) ==> GetEventsSpec(view, q) == Err(InvalidContinuationToken))
  {
    var r := BlockRange(view, q.fromBlock, q.toBlock).value;
    var (n, skip) := Start(q, r.from).value;
    assert BlockEvents(view, r.latest, n).Ok?;
    if Good(view, q) {
      PageMeaning(view, q);
    }
  }

  /** A token past the end of the range gives an empty last page. */
  lemma TokenPastEnd(view: ChainView, q: Query)
    requires Reachable(view, q)
    requires var r := BlockRange(view, q.fromBlock, q.toBlock).value; Start(q, r.from).value.0 > r.last
    ensures GetEventsSpec(view, q) == Ok(EventsPage([], None))
  {
  }

  /** Where the token of a query's page stands. */
  ghost function TokenAt(view: ChainView, q: Query): (nat, nat)
    requires Good(view, q) && GetEventsSpec(view, q).Ok? && Good(view, Next(view, q))
  {
    Start(Next(view, q), BlockRange(view, q.fromBlock, q.toBlock).value.from).value
  }

  /**
    A page was read in one view, and its token is used in another one. That one has all blocks of its range,
    which has the same start and reaches the token's block, and the blocks before that have the same events.
   */
  ghost predicate HandedOver(view: ChainView, view': ChainView, q: Query) {
    && Good(view, q) && Good(view', q) && q.continuationToken == None
    && GetEventsSpec(view, q).Ok? && GetEventsSpec(view, q).value.continuationToken.Some?
    && Good(view, Next(view, q))
    && var r := BlockRange(view, q.fromBlock, q.toBlock).value;
       var r' := BlockRange(view', q.fromBlock, q.toBlock).value;
       var n := TokenAt(view, q).0;
       && r.from == r'.from && r'.from <= r'.last && n <= r'.last
       && forall k | r.from <= k < n :: SameBlock(view, view', r.latest, r'.latest, k)
  }

  /** The token is accepted exactly if its block still has as many matching events as were read of it. */
  lemma HandOverAccepted(view: ChainView, view': ChainView, q: Query)
    requires HandedOver(view, view', q)
    ensures var r' := BlockRange(view', q.fromBlock, q.toBlock).value;
            var (n, skip) := TokenAt(view, q);
            && BlockEvents(view', r'.latest, n).Ok?
            && (Good(view', Next(view, q)) <==> skip <= |MatchingBodies(view', q.filter, r'.latest, n)|)
            && (GetEventsSpec(view', Next(view, q)).Ok? <==> Good(view', Next(view, q)))
            && (!Good(view', Next(view, q)) ==> GetEventsSpec(view', Next(view, q)) == Err(InvalidContinuationToken))
  {
    PageIsDelivered(view, q);
    TokenAccepted(view', Next(view, q));
  }

  /**
    If it is accepted, the two answers together are the events of the new range, up to their place in the
    chain, exactly if the token's block starts, as far as it was read, with the same matching events.
   */
  lemma HandOver(view: ChainView, view': ChainView, q: Query)
    requires HandedOver(view, view', q) && Good(view', Next(view, q))
    ensures var r := BlockRange(view, q.fromBlock, q.toBlock).value;
            var r' := BlockRange(view', q.fromBlock, q.toBlock).value;
            var (n, skip) := TokenAt(view, q);
            && Position(view, q.filter, r.latest, n, r.last, skip)
            && Position(view', q.filter, r'.latest, n, r'.last, skip)
            && ((Bodies(GetEventsSpec(view, q).value.events + Remaining(view', Next(view, q)))
                 == Bodies(Remaining(view', q)))
                <==> (MatchingBodies(view, q.filter, r.latest, n)[..skip]
                      == MatchingBodies(view', q.filter, r'.latest, n)[..skip]))
  {
    PageIsDelivered(view, q);
    HandOverSplit(view', q, Next(view, q), GetEventsSpec(view, q).value.events);
    var r := BlockRange(view, q.fromBlock, q.toBlock).value;
    var r' := BlockRange(view', q.fromBlock, q.toBlock).value;
    var (n, skip) := TokenAt(view, q);
    DeliveredAgrees(view, view', q.filter, r.latest, r'.latest, r.from, n, skip);
  }

  /** The events before and after a position in a view. */
  lemma HandOverSplit(view: ChainView, q: Query, q': Query, events: seq<EmittedEvent>)
    requires Good(view, q) && Good(view, q') && q.continuationToken == None
    requires q' == q.(continuationToken := q'.continuationToken)
    requires var r := BlockRange(view, q.fromBlock, q.toBlock).value;
             r.from <= r.last && r.from <= Start(q', r.from).value.0
    ensures var r := BlockRange(view, q.fromBlock, q.toBlock).value;
            var (n, skip) := Start(q', r.from).value;
            && Available(view, r.latest, r.from, n) && Position(view, q.filter, r.latest, n, r.last, skip)
            && (Bodies(events + Remaining(view, q')) == Bodies(Remaining(view, q))
                <==> Bodies(events) == Bodies(Delivered(view, q.filter, r.latest, r.from, n, skip)))
  {
    var r := BlockRange(view, q.fromBlock, q.toBlock).value;
    var (n, skip) := Start(q', r.from).value;
    DeliveredAndRest(view, q.filter, r.latest, r.from, n, skip, r.last);
    var delivered, rest := Delivered(view, q.filter, r.latest, r.from, n, skip), Remaining(view, q');
    assert Remaining(view, q) == delivered + rest;
    BodiesConcat(events, rest);
    BodiesConcat(delivered, rest);
    SameBefore(Bodies(events), Bodies(delivered), Bodies(rest));
  }

  // ----- A pending block that changes between two calls

  /** Everything up to the pending block, one event at a time. */
  const UP_TO_PENDING: Query := Query(None, Some(Pending), Filter(None, []), 1, None)

  const SECOND: Query := UP_TO_PENDING.(continuationToken := Some(Print(Token(1, 1))))

  function AsPending(e: Event, transaction: Term): EmittedEvent {
    EmittedEvent(e.fromAddress, e.keys, e.data, None, None, transaction)
  }

  function AsConfirmed(e: Event, transaction: Term, hash: Term, number: nat): EmittedEvent {
    EmittedEvent(e.fromAddress, e.keys, e.data, Some(hash), Some(number), transaction)
  }

  /** Block 0 is empty; `pending` are the pending events. */
  function BeforeSeal(pending: seq<EmittedEvent>): ChainView {
    ChainView(Some(0), map[], map[0 := []], Some(pending))
  }

  /** Block 1 is confirmed with the given events, and the pending block is empty. */
  function AfterSeal(confirmed: seq<EmittedEvent>): ChainView {
    ChainView(Some(1), map[], map[0 := [], 1 := confirmed], Some([]))
  }

  lemma FirstPage(pending: seq<EmittedEvent>)
    requires 1 <= |pending| < 0x1_0000_0000_0000_0000
    ensures var view := BeforeSeal(pending);
            && Good(view, UP_TO_PENDING)
            && GetEventsSpec(view, UP_TO_PENDING) == Ok(EventsPage([pending[0]], Some(Print(Token(1, 1)))))
  {
    var view, q := BeforeSeal(pending), UP_TO_PENDING;
    assert BlockRange(view, q.fromBlock, q.toBlock) == Ok(Range(0, 1, 0));
    MatchesAll(q.filter, []);
    MatchesAll(q.filter, pending);
    assert Taken(pending[0..], 1) == [pending[0]];
    assert Scan(view, q.filter, 0, 1, 1, 0, 1) == Ok(Scanned([pending[0]], Some((1, 1))));
    assert Scan(view, q.filter, 0, 0, 1, 0, 1) == Ok(Scanned([] + [pending[0]], Some((1, 1))));
    assert [] + [pending[0]] == [pending[0]] && Start(q, 0) == Ok((0, 0));
    assert PageOf(Scanned([pending[0]], Some((1, 1)))) == EventsPage([pending[0]], Some(Print(Token(1, 1))));
  }

  lemma EventsAfterSeal(es: seq<EmittedEvent>)
    ensures var view := AfterSeal(es);
            && BlockRange(view, None, Some(Pending)) == Ok(Range(0, 2, 1)) && Available(view, 1, 0, 2)
            && AllEvents(view, 1, 1, 2) == AllEvents(view, 1, 0, 2) == es
  {
    var view := AfterSeal(es);
    assert AllEvents(view, 1, 2, 2) == [] + AllEvents(view, 1, 3, 2) == [];
    assert AllEvents(view, 1, 1, 2) == es + AllEvents(view, 1, 2, 2) == es;
    assert AllEvents(view, 1, 0, 2) == [] + AllEvents(view, 1, 1, 2) == es;
  }

  lemma SecondPage(es: seq<EmittedEvent>)
    requires 1 <= |es| < 0x1_0000_0000_0000_0000
    ensures Good(AfterSeal(es), SECOND) && Remaining(AfterSeal(es), SECOND) == es[1..]
  {
    ParseOfPrint(Token(1, 1));
    EventsAfterSeal(es);
    MatchesAll(SECOND.filter, es);
    assert Start(SECOND, 0) == Ok((1, 1));
  }

  lemma WholeRange(es: seq<EmittedEvent>)
    requires |es| < 0x1_0000_0000_0000_0000
    ensures Good(AfterSeal(es), UP_TO_PENDING) && Remaining(AfterSeal(es), UP_TO_PENDING) == es
  {
    EventsAfterSeal(es);
    MatchesAll(UP_TO_PENDING.filter, es);
    assert Start(UP_TO_PENDING, 0) == Ok((0, 0));
  }

  /** The conditions of a hand-over, one by one. */
  lemma HandsOver(view: ChainView, view': ChainView, q: Query, page: EventsPage, t: Token, r: Range, r': Range)
    requires Good(view, q) && Good(view', q) && q.continuationToken == None
    requires GetEventsSpec(view, q) == Ok(page) && page.continuationToken == Some(Print(t))
    requires BlockRange(view, q.fromBlock, q.toBlock) == Ok(r) && BlockRange(view', q.fromBlock, q.toBlock) == Ok(r')
    requires r.from == r'.from <= r'.last && t.blockN <= r'.last
    requires forall k | r.from <= k < t.blockN :: SameBlock(view, view', r.latest, r'.latest, k)
    ensures HandedOver(view, view', q) && TokenAt(view, q) == (t.blockN, t.eventN)
    ensures Next(view, q) == q.(continuationToken := Some(Print(t)))
  {
    PageMeaning(view, q);
    ParseOfPrint(t);
  }

  lemma SealRanges(pending: seq<EmittedEvent>, confirmed: seq<EmittedEvent>)
    ensures var view, view' := BeforeSeal(pending), AfterSeal(confirmed);
            && Extends(view, view') && SameBlock(view, view', 0, 1, 0)
            && BlockRange(view, None, Some(Pending)) == Ok(Range(0, 1, 0))
            && BlockRange(view', None, Some(Pending)) == Ok(Range(0, 2, 1))
  {
  }

  lemma SealHandsOver(pending: seq<EmittedEvent>, confirmed: seq<EmittedEvent>)
    requires 1 <= |pending| < 0x1_0000_0000_0000_0000 && |confirmed| < 0x1_0000_0000_0000_0000
    ensures var view, view' := BeforeSeal(pending), AfterSeal(confirmed);
            HandedOver(view, view', UP_TO_PENDING) && Next(view, UP_TO_PENDING) == SECOND
  {
    var view, view' := BeforeSeal(pending), AfterSeal(confirmed);
    FirstPage(pending);
    WholeRange(confirmed);
    SealRanges(pending, confirmed);
    var page := EventsPage([pending[0]], Some(Print(Token(1, 1))));
    HandsOver(view, view', UP_TO_PENDING, page, Token(1, 1), Range(0, 1, 0), Range(0, 2, 1));
  }

  lemma SealProduced(a: Event, b: Event, ta: Term, tb: Term, hash: Term)
    ensures Produced(BeforeSeal([AsPending(a, ta), AsPending(b, tb)]))
    ensures Produced(AfterSeal([AsConfirmed(b, tb, hash, 1), AsConfirmed(a, ta, hash, 1)]))
  {
  }

  /** The pending events a and b are confirmed as b and a between two calls: a comes twice and b is missed. */
  lemma PendingReordered(a: Event, b: Event, ta: Term, tb: Term, hash: Term)
    ensures var view := BeforeSeal([AsPending(a, ta), AsPending(b, tb)]);
            var view' := AfterSeal([AsConfirmed(b, tb, hash, 1), AsConfirmed(a, ta, hash, 1)]);
            && Produced(view) && Produced(view') && Extends(view, view')
            && HandedOver(view, view', UP_TO_PENDING) && Next(view, UP_TO_PENDING) == SECOND && Good(view', SECOND)
            && Bodies(GetEventsSpec(view, UP_TO_PENDING).value.events + Remaining(view', SECOND)) == [a, a]
            && Bodies(Remaining(view', UP_TO_PENDING)) == [b, a]
  {
    var pending := [AsPending(a, ta), AsPending(b, tb)];
    var confirmed := [AsConfirmed(b, tb, hash, 1), AsConfirmed(a, ta, hash, 1)];
    FirstPage(pending);
    SecondPage(confirmed);
    WholeRange(confirmed);
    SealRanges(pending, confirmed);
    SealHandsOver(pending, confirmed);
    SealProduced(a, b, ta, tb, hash);
    assert confirmed[1..] == [AsConfirmed(a, ta, hash, 1)];
    assert Bodies([pending[0]] + confirmed[1..]) == [a, a];
  }

  /** The only pending event is dropped between two calls: the token of the first page is refused. */
  lemma PendingDropped(a: Event, ta: Term)
    ensures var view, view' := BeforeSeal([AsPending(a, ta)]), BeforeSeal([]);
            && Produced(view) && Produced(view')
            && HandedOver(view, view', UP_TO_PENDING) && Next(view, UP_TO_PENDING) == SECOND
            && GetEventsSpec(view', SECOND) == Err(InvalidContinuationToken)
  {
    DropHandsOver([AsPending(a, ta)]);
    HandOverAccepted(BeforeSeal([AsPending(a, ta)]), BeforeSeal([]), UP_TO_PENDING);
  }

  lemma DropHandsOver(pending: seq<EmittedEvent>)
    requires 1 <= |pending| < 0x1_0000_0000_0000_0000
    ensures var view, view' := BeforeSeal(pending), BeforeSeal([]);
            && HandedOver(view, view', UP_TO_PENDING) && Next(view, UP_TO_PENDING) == SECOND
            && TokenAt(view, UP_TO_PENDING) == (1, 1)
  {
    var view, view' := BeforeSeal(pending), BeforeSeal([]);
    FirstPage(pending);
    var page := EventsPage([pending[0]], Some(Print(Token(1, 1))));
    assert Start(UP_TO_PENDING, 0) == Ok((0, 0));
    assert BlockRange(view', None, Some(Pending)) == Ok(Range(0, 1, 0));
    assert SameBlock(view, view', 0, 0, 0);
    HandsOver(view, view', UP_TO_PENDING, page, Token(1, 1), Range(0, 1, 0), Range(0, 1, 0));
  }

  lemma {:induction false} MatchesAll(f: Filter, events: seq<EmittedEvent>)
    requires f == Filter(None, [])
    ensures Matching(f, events) == events
  {
    if events != [] {
      MatchesAll(f, events[1..]);
      assert events == [events[0]] + events[1..];
    }
  }
}
