/** Querying events page by page. */
module EventPaging {
  import opened Primitives
  import opened Bytes
  import opened Arithmetic
  import opened TransactionHash
  import opened ContinuationToken

  datatype EmittedEvent = EmittedEvent(
    fromAddress: Felt,
    keys: seq<Felt>,
    data: seq<Felt>,
    blockHash: Option<Term>,
    blockNumber: Option<nat>,
    transactionHash: Term)

  datatype BlockId = Hash(hash: Felt) | Number(number: U64) | Latest | Pending

  /** The chain as the query sees it: events by block number, and those of the pending block, if there is one. */
  datatype ChainView = ChainView(
    latest: Option<U64>,
    numbers: map<Felt, U64>,
    blocks: map<nat, seq<EmittedEvent>>,
    pending: Option<seq<EmittedEvent>>)

  datatype Filter = Filter(address: Option<Felt>, keys: seq<seq<Felt>>)

  datatype Query = Query(
    fromBlock: Option<BlockId>,
    toBlock: Option<BlockId>,
    filter: Filter,
    chunkSize: U64,
    continuationToken: Option<string>)

  datatype EventsPage = EventsPage(events: seq<EmittedEvent>, continuationToken: Option<string>)

  datatype QueryError = TooManyKeysInFilter | PageSizeTooBig | BlockNotFound | InvalidContinuationToken

  const MAX_EVENTS_KEYS: nat := 100
  const MAX_EVENTS_CHUNK_SIZE: nat := 1000

  // ----- Blocks and filters

  function NumberOf(view: ChainView, id: BlockId): Result<nat, QueryError> {
    match id
    case Number(n) => Ok(n)
    case Hash(h) => if h in view.numbers then Ok(view.numbers[h]) else Err(BlockNotFound)
    case Latest => if view.latest.Some? then Ok(view.latest.value) else Err(BlockNotFound)
    case Pending => if view.latest.Some? then Ok(view.latest.value) else Err(BlockNotFound)
  }

  datatype Range = Range(from: nat, last: nat, latest: nat)

  /** One end of the range. The pending block comes after the latest one; a missing end is block 0. */
  function RangeEnd(view: ChainView, latest: nat, id: Option<BlockId>): Result<nat, QueryError> {
    match id
    case Some(Pending) => Ok(latest + 1)
    case Some(other) => NumberOf(view, other)
    case None => NumberOf(view, Number(0))
  }

  function BlockRange(view: ChainView, from: Option<BlockId>, upTo: Option<BlockId>): Result<Range, QueryError> {
    match NumberOf(view, Latest)
    case Err(e) => Err(e)
    case Ok(latest) =>
      match (RangeEnd(view, latest, from), RangeEnd(view, latest, upTo))
      case (Ok(f), Ok(t)) => Ok(Range(f, t, latest))
      case _ => Err(BlockNotFound)
  }

  /** The events of a block. Every number after the latest one means the pending block. */
  function BlockEvents(view: ChainView, latest: nat, n: nat): Result<seq<EmittedEvent>, QueryError> {
    if n <= latest then
      if n in view.blocks then Ok(view.blocks[n]) else Err(BlockNotFound)
    else
      if view.pending.Some? then Ok(view.pending.value) else Err(BlockNotFound)
  }

  /** The key at each filtered position fits; an empty choice admits any key there. */
  predicate KeysMatch(filter: seq<seq<Felt>>, keys: seq<Felt>) {
    forall i | 0 <= i < |filter| :: i < |keys| && (filter[i] == [] || keys[i] in filter[i])
  }

  predicate EventMatches(f: Filter, e: EmittedEvent) {
    (f.address.Some? ==> f.address.value == e.fromAddress) && KeysMatch(f.keys, e.keys)
  }

  function Matching(f: Filter, events: seq<EmittedEvent>): (r: seq<EmittedEvent>)
    ensures |r| <= |events|
  {
    if events == [] then []
    else if EventMatches(f, events[0]) then [events[0]] + Matching(f, events[1..])
    else Matching(f, events[1..])
  }

  // ----- One page

  datatype Scanned = Scanned(events: seq<EmittedEvent>, next: Option<(nat, nat)>)

  /** Collects up to `room` events from block `n` on, skipping `skip` of them; says where the page ended, if full. */
  function Scan(view: ChainView, f: Filter, latest: nat, n: nat, last: nat, skip: nat, room: nat)
    : Result<Scanned, QueryError>
    decreases last + 1 - n
  {
    if n > last then
      Ok(Scanned([], None))
    else match BlockEvents(view, latest, n)
      case Err(e) => Err(e)
      case Ok(events) =>
        var matching := Matching(f, events);
        if |matching| < skip then Err(InvalidContinuationToken)
        else
          var taken := Taken(matching[skip..], room);
          if |taken| == room then Ok(Scanned(taken, Some((n, skip + room))))
          else
            match Scan(view, f, latest, n + 1, last, 0, room - |taken|)
            case Err(e) => Err(e)
            case Ok(rest) => Ok(Scanned(taken + rest.events, rest.next))
  }

  predicate PrintableToken(next: Option<(nat, nat)>) {
    next.Some? ==> next.value.0 < 0x1_0000_0000_0000_0000 && next.value.1 < 0x1_0000_0000_0000_0000
  }

  function PageOf(s: Scanned): EventsPage
    requires PrintableToken(s.next)
  {
    EventsPage(s.events, if s.next.None? then None else Some(Print(Token(s.next.value.0, s.next.value.1))))
  }

  /** Where a query starts: at its token, or at the start of the range. */
  function Start(q: Query, from: nat): Result<(nat, nat), QueryError> {
    match q.continuationToken
    case None => Ok((from, 0))
    case Some(s) =>
      match Parse(s)
      case Ok(t) => Ok((t.blockN, t.eventN))
      case Err(_) => Err(InvalidContinuationToken)
  }

  /** Block numbers and event counts are 64-bit numbers, and the latest block is not the last possible one. */
  ghost predicate ValidView(view: ChainView) {
    && (view.latest.Some? ==> view.latest.value + 1 < 0x1_0000_0000_0000_0000)
    && (forall n | n in view.blocks :: |view.blocks[n]| < 0x1_0000_0000_0000_0000)
    && (view.pending.Some? ==> |view.pending.value| < 0x1_0000_0000_0000_0000)
  }

  lemma Assoc<T>(a: seq<T>, b: seq<T>, c: seq<T>)
    ensures a + (b + c) == (a + b) + c
  {
  }

  lemma TakenConcat<T>(a: seq<T>, b: seq<T>, room: nat)
    ensures if |a| >= room then Taken(a + b, room) == Taken(a, room) && (a + b)[room..] == a[room..] + b
            else Taken(a + b, room) == a + Taken(b, room - |a|)
                 && (|a + b| >= room ==> (a + b)[room..] == b[room - |a|..])
  {
  }

  lemma {:induction false} MatchingConcat(f: Filter, a: seq<EmittedEvent>, b: seq<EmittedEvent>)
    ensures Matching(f, a + b) == Matching(f, a) + Matching(f, b)
  {
    if a == [] {
      assert a + b == b;
    } else {
      MatchingConcat(f, a[1..], b);
      assert (a + b)[0] == a[0] && (a + b)[1..] == a[1..] + b;
      if EventMatches(f, a[0]) {
        Assoc([a[0]], Matching(f, a[1..]), Matching(f, b));
      }
    }
  }

  lemma {:induction false} ScanEnd(view: ChainView, f: Filter, latest: nat, n: nat, last: nat, skip: nat, room: nat)
    requires ValidView(view)
    ensures var r := Scan(view, f, latest, n, last, skip, room);
            r.Ok? && r.value.next.Some? ==>
              && n <= r.value.next.value.0 <= last
              && r.value.next.value.1 < 0x1_0000_0000_0000_0000
    decreases last + 1 - n
  {
    if n <= last && BlockEvents(view, latest, n).Ok? {
      var matching := Matching(f, BlockEvents(view, latest, n).value);
      if skip <= |matching| && |Taken(matching[skip..], room)| != room {
        ScanEnd(view, f, latest, n + 1, last, 0, room - |Taken(matching[skip..], room)|);
      }
    }
  }

  function GetEventsSpec(view: ChainView, q: Query): Result<EventsPage, QueryError>
    requires ValidView(view)
  {
    if |q.filter.keys| > MAX_EVENTS_KEYS then Err(TooManyKeysInFilter)
    else if q.chunkSize > MAX_EVENTS_CHUNK_SIZE then Err(PageSizeTooBig)
    else match BlockRange(view, q.fromBlock, q.toBlock)
      case Err(e) => Err(e)
      case Ok(Range(from, last, latest)) =>
        match Start(q, from)
        case Err(e) => Err(e)
        case Ok((n, skip)) =>
          if from > last then Ok(EventsPage([], None))
          else match Scan(view, q.filter, latest, n, last, skip, q.chunkSize)
            case Err(e) => Err(e)
            case Ok(s) =>
              RangeBounds(view, q);
              ScanEnd(view, q.filter, latest, n, last, skip, q.chunkSize);
              Ok(PageOf(s))
  }

  lemma RangeBounds(view: ChainView, q: Query)
    requires ValidView(view)
    ensures var r := BlockRange(view, q.fromBlock, q.toBlock);
            r.Ok? ==> r.value.from < 0x1_0000_0000_0000_0000 && r.value.last < 0x1_0000_0000_0000_0000
  {
  }

  /** A position in the range, at most at the end of its block. */
  ghost predicate Position(view: ChainView, f: Filter, latest: nat, n: nat, last: nat, skip: nat) {
    n <= last && BlockEvents(view, latest, n).Ok? && skip <= |Matching(f, BlockEvents(view, latest, n).value)|
  }

  // ----- The query loop

  function Prepend(events: seq<EmittedEvent>, r: Result<Scanned, QueryError>): Result<Scanned, QueryError> {
    match r
    case Err(e) => Err(e)
    case Ok(s) => Ok(Scanned(events + s.events, s.next))
  }

  lemma PrependTwice(a: seq<EmittedEvent>, b: seq<EmittedEvent>, r: Result<Scanned, QueryError>)
    ensures Prepend(a, Prepend(b, r)) == Prepend(a + b, r)
  {
    if r.Ok? {
      assert a + (b + r.value.events) == (a + b) + r.value.events;
    }
  }

  /** The loop has collected `filtered` and goes on with block `current`. */
  ghost predicate ScanReached(view: ChainView, f: Filter, chunkSize: nat, latest: nat, last: nat,
                              whole: Result<Scanned, QueryError>,
                              filtered: seq<EmittedEvent>, current: nat, skip: nat) {
    |filtered| <= chunkSize
    && whole == Prepend(filtered, Scan(view, f, latest, current, last, skip, chunkSize - |filtered|))
  }

  lemma ScanStep(view: ChainView, f: Filter, chunkSize: nat, latest: nat, last: nat, whole: Result<Scanned, QueryError>,
                 filtered: seq<EmittedEvent>, current: nat, skip: nat)
    requires ScanReached(view, f, chunkSize, latest, last, whole, filtered, current, skip) && current <= last
    ensures var events := BlockEvents(view, latest, current);
            if events.Err? then whole == Err(events.error)
            else
              var matching := Matching(f, events.value);
              if |matching| < skip then whole == Err(InvalidContinuationToken)
              else
                var taken := Taken(matching[skip..], chunkSize - |filtered|);
                if |filtered + taken| == chunkSize
                then whole == Ok(Scanned(filtered + taken, Some((current, skip + |taken|))))
                else ScanReached(view, f, chunkSize, latest, last, whole, filtered + taken, current + 1, 0)
  {
    var room := chunkSize - |filtered|;
    if Position(view, f, latest, current, last, skip) {
      var taken := Taken(Matching(f, BlockEvents(view, latest, current).value)[skip..], room);
      if |taken| == room {
        assert Scan(view, f, latest, current, last, skip, room) == Ok(Scanned(taken, Some((current, skip + room))));
      } else {
        var rest := Scan(view, f, latest, current + 1, last, 0, room - |taken|);
        assert Scan(view, f, latest, current, last, skip, room) == Prepend(taken, rest);
        PrependTwice(filtered, taken, rest);
        assert chunkSize - |filtered + taken| == room - |taken|;
      }
    }
  }

  lemma ScanFull(view: ChainView, f: Filter, chunkSize: nat, latest: nat, last: nat, whole: Result<Scanned, QueryError>,
                 filtered: seq<EmittedEvent>, current: nat, skip: nat, taken: seq<EmittedEvent>)
    requires ScanReached(view, f, chunkSize, latest, last, whole, filtered, current, skip) && current <= last
    requires Position(view, f, latest, current, last, skip) && |filtered + taken| == chunkSize
    requires taken
          == Taken(Matching(f, BlockEvents(view, latest, current).value)[skip..], chunkSize - |filtered|)
    ensures whole == Ok(Scanned(filtered + taken, Some((current, skip + |taken|))))
  {
    ScanStep(view, f, chunkSize, latest, last, whole, filtered, current, skip);
  }

  lemma ScanGoesOn(view: ChainView, f: Filter, chunkSize: nat, latest: nat, last: nat,
                   whole: Result<Scanned, QueryError>,
                   filtered: seq<EmittedEvent>, current: nat, skip: nat, taken: seq<EmittedEvent>)
    requires ScanReached(view, f, chunkSize, latest, last, whole, filtered, current, skip) && current <= last
    requires Position(view, f, latest, current, last, skip) && |filtered + taken| != chunkSize
    requires taken
          == Taken(Matching(f, BlockEvents(view, latest, current).value)[skip..], chunkSize - |filtered|)
    ensures ScanReached(view, f, chunkSize, latest, last, whole, filtered + taken, current + 1, 0)
  {
    ScanStep(view, f, chunkSize, latest, last, whole, filtered, current, skip);
  }

  lemma ScanDone(view: ChainView, f: Filter, chunkSize: nat, latest: nat, last: nat, whole: Result<Scanned, QueryError>,
                 filtered: seq<EmittedEvent>, current: nat, skip: nat)
    requires ScanReached(view, f, chunkSize, latest, last, whole, filtered, current, skip) && current > last
    ensures whole == Ok(Scanned(filtered, None))
  {
    assert filtered + [] == filtered;
  }

  lemma PrependNothing(r: Result<Scanned, QueryError>)
    ensures Prepend([], r) == r
  {
    if r.Ok? {
      assert [] + r.value.events == r.value.events;
    }
  }

  method GetEvents(view: ChainView, q: Query) returns (r: Result<EventsPage, QueryError>)
    requires ValidView(view)
    ensures r == GetEventsSpec(view, q)
  {
    if |q.filter.keys| > MAX_EVENTS_KEYS {
      return Err(TooManyKeysInFilter);
    }
    if q.chunkSize > MAX_EVENTS_CHUNK_SIZE {
      return Err(PageSizeTooBig);
    }
    var range := BlockRange(view, q.fromBlock, q.toBlock);
    if range.Err? {
      return Err(range.error);
    }
    var start := Start(q, range.value.from);
    if start.Err? {
      return Err(start.error);
    }
    if range.value.from > range.value.last {
      return Ok(EventsPage([], None));
    }
    RangeBounds(view, q);
    r := CollectPage(view, q, range.value.latest, start.value.0, range.value.last, start.value.1);
  }

  /** The loop over the blocks. */
  method CollectPage(view: ChainView, q: Query, latest: nat, fromBlock: nat, last: nat, eventN: nat)
    returns (r: Result<EventsPage, QueryError>)
    requires ValidView(view) && last < 0x1_0000_0000_0000_0000
    ensures match Scan(view, q.filter, latest, fromBlock, last, eventN, q.chunkSize)
            case Err(e) => r == Err(e)
            case Ok(s) => PrintableToken(s.next) && r == Ok(PageOf(s))
  {
    ghost var whole := Scan(view, q.filter, latest, fromBlock, last, eventN, q.chunkSize);
    ScanEnd(view, q.filter, latest, fromBlock, last, eventN, q.chunkSize);
    PrependNothing(whole);
    var filtered: seq<EmittedEvent> := [];
    var current := fromBlock;
    ghost var skip := eventN;
    while current <= last
      invariant fromBlock <= current
      invariant skip == (if current == fromBlock then eventN else 0) && (current == fromBlock ==> filtered == [])
      invariant ScanReached(view, q.filter, q.chunkSize, latest, last, whole, filtered, current, skip)
      decreases if current > last then 0 else last + 1 - current
    {
      var events := BlockEvents(view, latest, current);
      if events.Err? {
        ScanStep(view, q.filter, q.chunkSize, latest, last, whole, filtered, current, skip);
        return Err(events.error);
      }
      var matching := Matching(q.filter, events.value);
      if current == fromBlock && |matching| < eventN {
        ScanStep(view, q.filter, q.chunkSize, latest, last, whole, filtered, current, skip);
        return Err(InvalidContinuationToken);
      }
      var reduced := Taken(matching[if current == fromBlock then eventN else 0..], q.chunkSize - |filtered|);
      var numEvents := |reduced|;
      ghost var before := filtered;
      filtered := filtered + reduced;
      if |filtered| == q.chunkSize {
        var endN := if current == fromBlock then eventN + q.chunkSize else numEvents;
        ScanFull(view, q.filter, q.chunkSize, latest, last, whole, before, current, skip, reduced);
        return Ok(EventsPage(filtered, Some(Print(Token(current, endN)))));
      }
      ScanGoesOn(view, q.filter, q.chunkSize, latest, last, whole, before, current, skip, reduced);
      current := current + 1;
      skip := 0;
    }
    ScanDone(view, q.filter, q.chunkSize, latest, last, whole, filtered, current, skip);
    r := Ok(EventsPage(filtered, None));
  }

  // ----- Pages against the whole list

  predicate Available(view: ChainView, latest: nat, n: nat, last: nat) {
    forall k | n <= k <= last :: BlockEvents(view, latest, k).Ok?
  }

  /** All events of the blocks n, ..., last. */
  function AllEvents(view: ChainView, latest: nat, n: nat, last: nat): seq<EmittedEvent>
    requires Available(view, latest, n, last)
    decreases last + 1 - n
  {
    if n > last then [] else BlockEvents(view, latest, n).value + AllEvents(view, latest, n + 1, last)
  }

  /** What is still to come at position `skip` of block `n`. */
  function Rest(view: ChainView, f: Filter, latest: nat, n: nat, last: nat, skip: nat): seq<EmittedEvent>
    requires Available(view, latest, n, last)
  {
    var all := Matching(f, AllEvents(view, latest, n, last));
    if skip <= |all| then all[skip..] else []
  }

  lemma RestSplits(view: ChainView, f: Filter, latest: nat, n: nat, last: nat, skip: nat)
    requires Available(view, latest, n, last) && Position(view, f, latest, n, last, skip)
    ensures Rest(view, f, latest, n, last, skip)
         == Matching(f, BlockEvents(view, latest, n).value)[skip..] + Rest(view, f, latest, n + 1, last, 0)
  {
    var here := BlockEvents(view, latest, n).value;
    var later := AllEvents(view, latest, n + 1, last);
    MatchingConcat(f, here, later);
    assert AllEvents(view, latest, n, last) == here + later;
  }

  /** A scan returns the next `room` events; if there are that many, it also returns the position after them. */
  ghost predicate ScanRight(view: ChainView, f: Filter, latest: nat, last: nat, rest: seq<EmittedEvent>, room: nat,
                            r: Result<Scanned, QueryError>) {
    && r.Ok?
    && r.value.events == Taken(rest, room)
    && (if |rest| < room then r.value.next == None
        else
          && r.value.next.Some?
          && var (n, skip) := r.value.next.value;
             && Position(view, f, latest, n, last, skip)
             && Available(view, latest, n, last)
             && Rest(view, f, latest, n, last, skip) == rest[room..])
  }

  /** The page is full within block `n`. */
  lemma ScanFills(view: ChainView, f: Filter, latest: nat, n: nat, last: nat, skip: nat, room: nat)
    requires Available(view, latest, n, last) && Position(view, f, latest, n, last, skip)
    requires |Matching(f, BlockEvents(view, latest, n).value)| - skip >= room
    ensures ScanRight(view, f, latest, last, Rest(view, f, latest, n, last, skip), room,
                      Scan(view, f, latest, n, last, skip, room))
  {
    var matching := Matching(f, BlockEvents(view, latest, n).value);
    var here, later := matching[skip..], Rest(view, f, latest, n + 1, last, 0);
    RestSplits(view, f, latest, n, last, skip);
    RestSplits(view, f, latest, n, last, skip + room);
    TakenConcat(here, later, room);
    assert here[room..] == matching[skip + room..];
  }

  lemma {:induction false} ScanMeaning(view: ChainView, f: Filter, latest: nat, n: nat, last: nat, skip: nat, room: nat)
    requires Available(view, latest, n, last)
    requires if n <= last then Position(view, f, latest, n, last, skip) else skip == 0 && room > 0
    ensures ScanRight(view, f, latest, last, Rest(view, f, latest, n, last, skip), room,
                      Scan(view, f, latest, n, last, skip, room))
    decreases last + 1 - n
  {
    if n <= last {
      var matching := Matching(f, BlockEvents(view, latest, n).value);
      if |matching| - skip >= room {
        ScanFills(view, f, latest, n, last, skip, room);
      } else {
        var here, later := matching[skip..], Rest(view, f, latest, n + 1, last, 0);
        RestSplits(view, f, latest, n, last, skip);
        TakenConcat(here, later, room);
        ScanMeaning(view, f, latest, n + 1, last, 0, room - |here|);
      }
    }
  }

  // ----- Following the tokens

  /** A query whose blocks are all there, with a token (if any) at a position of that range. */
  ghost predicate Good(view: ChainView, q: Query) {
    && ValidView(view)
    && |q.filter.keys| <= MAX_EVENTS_KEYS && 1 <= q.chunkSize <= MAX_EVENTS_CHUNK_SIZE
    && BlockRange(view, q.fromBlock, q.toBlock).Ok?
    && var Range(from, last, latest) := BlockRange(view, q.fromBlock, q.toBlock).value;
       && Start(q, from).Ok?
       && var (n, skip) := Start(q, from).value;
          from <= last ==> Available(view, latest, n, last) && Position(view, q.filter, latest, n, last, skip)
  }

  /** The matching events from the query's position to the end of its range. */
  ghost function Remaining(view: ChainView, q: Query): seq<EmittedEvent>
    requires Good(view, q)
  {
    var Range(from, last, latest) := BlockRange(view, q.fromBlock, q.toBlock).value;
    var (n, skip) := Start(q, from).value;
    if from <= last then Rest(view, q.filter, latest, n, last, skip) else []
  }

  /**
    One call: the next `chunkSize` events. A token comes with them exactly if there were that many; it is
    accepted by the next call, which goes on right after them.
   */
  lemma PageMeaning(view: ChainView, q: Query)
    requires Good(view, q)
    ensures var r := GetEventsSpec(view, q);
            && r.Ok?
            && r.value.events == Taken(Remaining(view, q), q.chunkSize)
            && (r.value.continuationToken.Some? <==> |Remaining(view, q)| >= q.chunkSize)
            && (r.value.continuationToken.Some? ==>
                  var q' := q.(continuationToken := r.value.continuationToken);
                  Good(view, q') && Remaining(view, q') == Remaining(view, q)[q.chunkSize..])
  {
    var Range(from, last, latest) := BlockRange(view, q.fromBlock, q.toBlock).value;
    var (n, skip) := Start(q, from).value;
    if from > last {
      return;
    }
    ScanMeaning(view, q.filter, latest, n, last, skip, q.chunkSize);
    var s := Scan(view, q.filter, latest, n, last, skip, q.chunkSize).value;
    RangeBounds(view, q);
    ScanEnd(view, q.filter, latest, n, last, skip, q.chunkSize);
    if s.next.Some? {
      var t := Token(s.next.value.0, s.next.value.1);
      var q' := q.(continuationToken := Some(Print(t)));
      ParseOfPrint(t);
    }
  }

  /** The pages of a client that follows the tokens until there is none. */
  ghost function FollowPages(view: ChainView, q: Query): seq<EventsPage>
    requires Good(view, q)
    decreases |Remaining(view, q)|
  {
    PageMeaning(view, q);
    var page := GetEventsSpec(view, q).value;
    if page.continuationToken.None? then [page]
    else [page] + FollowPages(view, q.(continuationToken := page.continuationToken))
  }

  function Concat(pages: seq<EventsPage>): seq<EmittedEvent> {
    if pages == [] then [] else pages[0].events + Concat(pages[1..])
  }

  lemma FollowStep(view: ChainView, q: Query)
    requires Good(view, q)
    ensures var rest := Remaining(view, q);
            if |rest| < q.chunkSize
            then |FollowPages(view, q)| == 1 && FollowPages(view, q)[0].events == rest
            else exists q' ::
                   && Good(view, q') && q'.chunkSize == q.chunkSize && Remaining(view, q') == rest[q.chunkSize..]
                   && FollowPages(view, q) == [FollowPages(view, q)[0]] + FollowPages(view, q')
                   && FollowPages(view, q)[0].events == rest[..q.chunkSize]
  {
    PageMeaning(view, q);
  }

  /** The pages make up `rest`; all but the last hold `c` events; there are |rest| / c + 1 of them. */
  ghost predicate PagesOf(pages: seq<EventsPage>, rest: seq<EmittedEvent>, c: nat)
    requires c > 0
  {
    && Concat(pages) == rest
    && |pages| == |rest| / c + 1
    && forall k | 0 <= k < |pages| - 1 :: |pages[k].events| == c
  }

  lemma LastPage(page: EventsPage, c: nat)
    requires |page.events| < c
    ensures PagesOf([page], page.events, c)
  {
    QuotientIs(|page.events|, c, 0, |page.events|);
    assert Concat([page]) == page.events + Concat([page][1..]);
  }

  lemma FullPage(page: EventsPage, pages: seq<EventsPage>, rest: seq<EmittedEvent>, c: nat)
    requires 0 < c <= |rest| && page.events == rest[..c] && PagesOf(pages, rest[c..], c)
    ensures PagesOf([page] + pages, rest, c)
  {
    DivisionStep(|rest|, c);
    assert ([page] + pages)[1..] == pages;
    assert rest == rest[..c] + rest[c..];
  }

  lemma {:induction false} FollowedPages(view: ChainView, q: Query)
    requires Good(view, q)
    ensures PagesOf(FollowPages(view, q), Remaining(view, q), q.chunkSize)
    decreases |Remaining(view, q)|
  {
    FollowStep(view, q);
    var rest, pages := Remaining(view, q), FollowPages(view, q);
    if |rest| < q.chunkSize {
      assert pages == [pages[0]];
      LastPage(pages[0], q.chunkSize);
    } else {
      var q' :| Good(view, q') && q'.chunkSize == q.chunkSize && Remaining(view, q') == rest[q.chunkSize..]
             && pages == [pages[0]] + FollowPages(view, q');
      FollowedPages(view, q');
      FullPage(pages[0], FollowPages(view, q'), rest, q.chunkSize);
    }
  }

  /**
    The pages of a query, one after the other, are the matching events of its range. All pages but the
    last are full, and there are N / chunkSize + 1 of them.
   */
  lemma PagingIsComplete(view: ChainView, q: Query)
    requires Good(view, q) && q.continuationToken == None
    ensures var Range(from, last, latest) := BlockRange(view, q.fromBlock, q.toBlock).value;
            PagesOf(FollowPages(view, q), Matching(q.filter, AllEvents(view, latest, from, last)), q.chunkSize)
  {
    FollowedPages(view, q);
  }

  // ----- The pending block in a range

  /** The events of the blocks n, ..., last, up to the latest one. */
  function Confirmed(view: ChainView, n: nat, last: nat): seq<EmittedEvent>
    decreases last + 1 - n
  {
    if n > last then [] else (if n in view.blocks then view.blocks[n] else []) + Confirmed(view, n + 1, last)
  }

  function PendingEvents(view: ChainView): seq<EmittedEvent> {
    if view.pending.Some? then view.pending.value else []
  }

  /** How many numbers of a range mean the pending block. */
  function PendingReads(r: Range): nat {
    if r.last <= r.latest || r.from > r.last then 0 else r.last + 1 - Max(r.from, r.latest + 1)
  }

  function Repeat<T>(s: seq<T>, times: nat): (r: seq<T>)
    ensures times == 1 ==> r == s
  {
    if times == 0 then [] else s + Repeat(s, times - 1)
  }

  lemma {:induction false} RepeatLength<T>(s: seq<T>, times: nat)
    ensures |Repeat(s, times)| == times * |s|
  {
    if times > 0 {
      RepeatLength(s, times - 1);
      assert times * |s| == (times - 1) * |s| + |s|;
    }
  }

  lemma {:induction false} MatchingRepeat(f: Filter, events: seq<EmittedEvent>, times: nat)
    ensures Matching(f, Repeat(events, times)) == Repeat(Matching(f, events), times)
  {
    if times > 0 {
      MatchingRepeat(f, events, times - 1);
      MatchingConcat(f, events, Repeat(events, times - 1));
    }
  }

  lemma {:induction false} AllEventsSplit(view: ChainView, latest: nat, n: nat, last: nat)
    requires Available(view, latest, n, last) && n <= last + 1
    ensures AllEvents(view, latest, n, last)
         == Confirmed(view, n, Min(last, latest)) + Repeat(PendingEvents(view), PendingReads(Range(n, last, latest)))
    decreases last + 1 - n
  {
    if n <= last {
      assert BlockEvents(view, latest, n).Ok?;
      AllEventsSplit(view, latest, n + 1, last);
      if n <= latest {
        Assoc(view.blocks[n], Confirmed(view, n + 1, Min(last, latest)),
              Repeat(PendingEvents(view), PendingReads(Range(n, last, latest))));
      }
    }
  }

  /** The matching events of the confirmed blocks of a range. */
  ghost function ConfirmedMatching(view: ChainView, q: Query): seq<EmittedEvent>
    requires Good(view, q)
  {
    var Range(from, last, latest) := BlockRange(view, q.fromBlock, q.toBlock).value;
    Matching(q.filter, Confirmed(view, from, Min(last, latest)))
  }

  /**
    What the pages of a query hold, in terms of the blocks: the matching events of the confirmed blocks,
    then those of the pending block, once for every number of the range above the latest block.
   */
  lemma PagesOfRange(view: ChainView, q: Query)
    requires Good(view, q) && q.continuationToken == None
    ensures var range := BlockRange(view, q.fromBlock, q.toBlock).value;
            Concat(FollowPages(view, q))
            == (if range.from > range.last then []
                else ConfirmedMatching(view, q)
                     + Repeat(Matching(q.filter, PendingEvents(view)), PendingReads(range)))
  {
    var Range(from, last, latest) := BlockRange(view, q.fromBlock, q.toBlock).value;
    FollowedPages(view, q);
    if from <= last {
      var times := PendingReads(Range(from, last, latest));
      AllEventsSplit(view, latest, from, last);
      MatchingConcat(q.filter, Confirmed(view, from, Min(last, latest)), Repeat(PendingEvents(view), times));
      MatchingRepeat(q.filter, PendingEvents(view), times);
    }
  }

  /** What one would expect: every matching event of the range, those of the pending block included, once. */
  ghost function EachOnce(view: ChainView, q: Query): seq<EmittedEvent>
    requires Good(view, q)
  {
    var Range(from, last, latest) := BlockRange(view, q.fromBlock, q.toBlock).value;
    if from > last then []
    else ConfirmedMatching(view, q) + (if last > latest then Matching(q.filter, PendingEvents(view)) else [])
  }

  lemma RepeatOnce<T>(s: seq<T>, times: nat)
    requires times > 0
    ensures Repeat(s, times) == s <==> times == 1 || s == []
  {
    RepeatLength(s, times);
    if times > 1 && s != [] {
      MulMonotone(2, times, |s|);
    }
    if s == [] {
      assert |Repeat(s, times)| == 0;
    }
  }

  /** No event is repeated exactly if the range ends at most one above the latest block, or starts at its end. */
  lemma NothingRepeated(view: ChainView, q: Query)
    requires Good(view, q) && q.continuationToken == None
    ensures var Range(from, last, latest) := BlockRange(view, q.fromBlock, q.toBlock).value;
            Concat(FollowPages(view, q)) == EachOnce(view, q)
            <==> last <= Max(from, latest + 1) || Matching(q.filter, PendingEvents(view)) == []
  {
    var range := BlockRange(view, q.fromBlock, q.toBlock).value;
    PagesOfRange(view, q);
    if range.from <= range.last && range.last > range.latest {
      var pending, times := Matching(q.filter, PendingEvents(view)), PendingReads(range);
      RepeatOnce(pending, times);
      SameAfter(ConfirmedMatching(view, q), Repeat(pending, times), pending);
    }
  }

  lemma SameAfter<T>(a: seq<T>, b: seq<T>, c: seq<T>)
    ensures a + b == a + c <==> b == c
  {
    if a + b == a + c {
      assert b == (a + b)[|a|..] && c == (a + c)[|a|..];
    }
  }

  /** With block 0 as the latest one, asking for the blocks up to 2 returns the only pending event twice. */
  lemma PendingTwice(e: EmittedEvent)
    ensures var view := ChainView(Some(0), map[], map[0 := []], Some([e]));
            var q := Query(None, Some(Number(2)), Filter(None, []), 10, None);
            Good(view, q) && Concat(FollowPages(view, q)) == [e, e]
  {
    var view := ChainView(Some(0), map[], map[0 := []], Some([e]));
    var q := Query(None, Some(Number(2)), Filter(None, []), 10, None);
    assert BlockRange(view, q.fromBlock, q.toBlock) == Ok(Range(0, 2, 0));
    PagesOfRange(view, q);
    assert Confirmed(view, 0, 0) == [] + Confirmed(view, 1, 0) == [];
    assert Matching(q.filter, [e]) == [e] + Matching(q.filter, []);
    assert Repeat([e], 2) == [e] + Repeat([e], 1);
  }

  /** A chunk size of zero never gets anywhere: the page is empty, and its token leads to the same page. */
  lemma ZeroChunkIsStuck(view: ChainView, q: Query)
    requires Good(view, q.(chunkSize := 1)) && q.chunkSize == 0
    requires var range := BlockRange(view, q.fromBlock, q.toBlock).value; range.from <= range.last
    ensures var r := GetEventsSpec(view, q);
            && r.Ok? && r.value.events == [] && r.value.continuationToken.Some?
            && GetEventsSpec(view, q.(continuationToken := r.value.continuationToken)) == r
  {
    var Range(from, last, latest) := BlockRange(view, q.fromBlock, q.toBlock).value;
    var (n, skip) := Start(q, from).value;
    RangeBounds(view, q);
    ScanEnd(view, q.filter, latest, n, last, skip, 0);
    var t := Token(n, skip);
    ParseOfPrint(t);
  }
}
