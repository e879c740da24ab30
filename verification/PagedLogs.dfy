/** Paginated log queries (packages/common/src/ContractInteractor.ts:640-769). */
module PagedLogs {
  import opened Outcomes

  datatype BlockTag = Number(n: nat) | Latest

  datatype Page = Page(fromBlock: BlockTag, toBlock: BlockTag)

  datatype QueryError =
    | OnlyNumbersSupported
    | FromAfterTo
    | NeedsTooManyPages(pages: nat)
    | TooManyEventsAfterSplitting(pages: nat)
    | QueryReturnedMoreThan
    | NodeError

  /** The logs of every block, and the block the node takes for 'latest'. */
  datatype Chain<E> = Chain(logs: nat -> seq<E>, head: nat)

  /** What the node answers to the n-th request: it delivers the page, or it fails. */
  datatype Reply = Delivered | Failed(error: QueryError)

  const MAX_ATTEMPTS: nat := 100
  const MAX_SPLIT: nat := 16

  function LogsBetween<E>(chain: Chain<E>, lo: nat, hi: nat): seq<E>
    decreases hi - lo
  {
    if lo > hi then [] else if lo == hi then chain.logs(lo) else chain.logs(lo) + LogsBetween(chain, lo + 1, hi)
  }

  function BlockOf<E>(chain: Chain<E>, tag: BlockTag): nat
  {
    if tag.Latest? then chain.head else tag.n
  }

  function PageLogs<E>(chain: Chain<E>, page: Page): seq<E>
  {
    LogsBetween(chain, BlockOf(chain, page.fromBlock), BlockOf(chain, page.toBlock))
  }

  function AllLogs<E>(chain: Chain<E>, pages: seq<Page>): seq<E>
  {
    if pages == [] then [] else AllLogs(chain, pages[..|pages| - 1]) + PageLogs(chain, pages[|pages| - 1])
  }

  /** The logs of the blocks lo to hi, block after block. */
  ghost function BlockLogs<E>(chain: Chain<E>, lo: nat, hi: nat): seq<E>
  {
    Flatten(seq(if lo <= hi then hi - lo + 1 else 0, i requires 0 <= i => chain.logs(lo + i)))
  }

  lemma {:induction false} LogsBetweenAreBlockLogs<E>(chain: Chain<E>, lo: nat, hi: nat)
    ensures LogsBetween(chain, lo, hi) == BlockLogs(chain, lo, hi)
    decreases hi - lo
  {
    if lo <= hi {
      LogsBetweenAreBlockLogs(chain, lo + 1, hi);
      var blocks := seq(hi - lo + 1, i requires 0 <= i => chain.logs(lo + i));
      assert blocks[1..] == seq(hi - lo, i requires 0 <= i => chain.logs(lo + 1 + i));
    }
  }

  // ---------- splitting a range ----------

  /** Rounded up: how many steps of `b` it takes to cover `a`, none if `a` is not positive. */
  function Ceil(a: int, b: int): nat
    requires b > 0
    decreases a
  {
    if a <= 0 then 0 else 1 + Ceil(a - b, b)
  }

  lemma Multiple(b: int, d: int)
    requires b > 0
    ensures (d >= 1 ==> b * d >= b) && (d <= -1 ==> b * d <= -b)
  {
  }

  lemma OneMoreStep(x: int, b: int)
    requires b > 0
    ensures (x + b) / b == x / b + 1
  {
    assert x == b * (x / b) + x % b && x + b == b * ((x + b) / b) + (x + b) % b;
    var d := (x + b) / b - x / b - 1;
    assert b * d == x % b - (x + b) % b;
    Multiple(b, d);
  }

  lemma {:induction false} CeilIsDivision(a: int, b: int)
    requires a > 0 && b > 0
    ensures Ceil(a, b) == (a + b - 1) / b
    decreases a
  {
    OneMoreStep(a - 1, b);
    if a > b {
      CeilIsDivision(a - b, b);
    } else {
      assert Ceil(a - b, b) == 0;
    }
  }

  /** `None` is an unlimited page size. */
  function GetLogsPagesForRange(fromBlock: BlockTag, toBlock: BlockTag,
                                maxPageSize: Option<nat>): Result<nat, QueryError>
    requires maxPageSize.Some? ==> maxPageSize.value > 0
  {
    if maxPageSize.None? then Success(1)
    else if fromBlock.Latest? || toBlock.Latest? then Failure(OnlyNumbersSupported)
    else
      var rangeSize := toBlock.n - fromBlock.n + 1;
      var pages := Ceil(rangeSize, maxPageSize.value);
      Success(if pages > 1 then pages else 1)
  }

  function Steps(b: nat, toBlock: nat, splitSize: nat): (pages: seq<Page>)
    requires splitSize > 0
    decreases toBlock + 1 - b
  {
    if b > toBlock then []
    else
      var page := Page(Number(b), Number(if toBlock < b + splitSize - 1 then toBlock else b + splitSize - 1));
      [page] + Steps(b + splitSize, toBlock, splitSize)
  }

  function Split(fromBlock: BlockTag, toBlock: BlockTag, parts: nat): Result<seq<Page>, QueryError>
    requires parts > 0
  {
    if parts == 1 then Success([Page(fromBlock, toBlock)])
    else if fromBlock.Latest? || toBlock.Latest? then Failure(OnlyNumbersSupported)
    else if fromBlock.n > toBlock.n then Success([])
    else
      Success(Steps(fromBlock.n, toBlock.n, Ceil(toBlock.n - fromBlock.n + 1, parts)))
  }

  method SplitRange(fromBlock: BlockTag, toBlock: BlockTag, parts: nat) returns (ret: Result<seq<Page>, QueryError>)
    requires parts > 0
    ensures ret == Split(fromBlock, toBlock, parts)
  {
    if parts == 1 { return Success([Page(fromBlock, toBlock)]); }
    if fromBlock.Latest? || toBlock.Latest? { return Failure(OnlyNumbersSupported); }
    var rangeSize := toBlock.n - fromBlock.n + 1;
    var splitSize := Ceil(rangeSize, parts);
    var pages := [];
    var b := fromBlock.n;
    while b <= toBlock.n
      invariant fromBlock.n <= toBlock.n ==>
                  splitSize > 0 && pages + Steps(b, toBlock.n, splitSize) == Steps(fromBlock.n, toBlock.n, splitSize)
      invariant fromBlock.n > toBlock.n ==> pages == [] && b == fromBlock.n
      decreases toBlock.n + 1 - b
    {
      pages := pages + [Page(Number(b), Number(if toBlock.n < b + splitSize - 1 then toBlock.n
          else b + splitSize - 1))];
      b := b + splitSize;
    }
    assert fromBlock.n <= toBlock.n ==> pages + Steps(b, toBlock.n, splitSize) == pages;
    ret := Success(pages);
  }

  lemma {:induction false} CeilCovers(a: int, b: int)
    requires b > 0
    ensures a <= b * Ceil(a, b)
    decreases a
  {
    if a > 0 {
      CeilCovers(a - b, b);
      assert b * (1 + Ceil(a - b, b)) == b + b * Ceil(a - b, b);
    }
  }

  lemma {:induction false} CeilAtMost(a: int, b: int, k: int)
    requires b > 0 && k >= 0 && a <= b * k
    ensures Ceil(a, b) <= k
    decreases k
  {
    if a > 0 {
      assert k > 0;
      assert b * (k - 1) == b * k - b;
      CeilAtMost(a - b, b, k - 1);
    }
  }

  /** Splitting into pages of the size that makes `parts` pages makes at most `parts` pages. */
  lemma CeilOfCeil(r: int, parts: int)
    requires r > 0 && parts > 0
    ensures Ceil(r, parts) > 0 && Ceil(r, Ceil(r, parts)) <= parts
  {
    CeilCovers(r, parts);
    CeilAtMost(r, Ceil(r, parts), parts);
  }

  /** Consecutive, disjoint, non-empty pages from `lo` to `hi`, none longer than `size`. */
  ghost predicate Tiles(pages: seq<Page>, lo: nat, hi: nat, size: nat)
  {
    && pages != []
    && (forall i :: 0 <= i < |pages| ==> NonEmptyPage(pages[i], size))
    && pages[0].fromBlock == Number(lo)
    && pages[|pages| - 1].toBlock == Number(hi)
    && forall i :: 0 < i < |pages| ==> Follows(pages[i - 1], pages[i])
  }

  ghost predicate NonEmptyPage(page: Page, size: nat)
  {
    page.fromBlock.Number? && page.toBlock.Number? && page.fromBlock.n <= page.toBlock.n < page.fromBlock.n + size
  }

  ghost predicate Follows(earlier: Page, later: Page)
  {
    earlier.toBlock.Number? && later.fromBlock == Number(earlier.toBlock.n + 1)
  }

  lemma {:induction false} StepsTile(b: nat, toBlock: nat, splitSize: nat)
    requires splitSize > 0 && b <= toBlock
    ensures Tiles(Steps(b, toBlock, splitSize), b, toBlock, splitSize)
    ensures |Steps(b, toBlock, splitSize)| == Ceil(toBlock - b + 1, splitSize)
    decreases toBlock - b
  {
    if b + splitSize <= toBlock {
      StepsTile(b + splitSize, toBlock, splitSize);
    }
  }

  /** A split covers the range exactly, in at most `parts` pages. */
  lemma SplitTiles(lo: nat, hi: nat, parts: nat)
    requires lo <= hi && parts > 0
    ensures var split := Split(Number(lo), Number(hi), parts);
            split.Success? && |split.value| <= parts && Ceil(hi - lo + 1, parts) > 0
                && Tiles(split.value, lo, hi, Ceil(hi - lo + 1, parts))
  {
    CeilOfCeil(hi - lo + 1, parts);
    if parts > 1 {
      StepsTile(lo, hi, Ceil(hi - lo + 1, parts));
    } else {
      CeilCovers(hi - lo + 1, 1);
    }
  }

  /** Split into the number of pages asked for, or four times as many, no page exceeds the configured size. */
  lemma PagesRespectMaxPageSize(lo: nat, hi: nat, maxPageSize: nat, times: nat)
    requires lo <= hi && maxPageSize > 0 && times > 0
    ensures var pages := GetLogsPagesForRange(Number(lo), Number(hi), Some(maxPageSize));
            pages.Success? && pages.value > 0 && pages.value * times > 0 &&
            var split := Split(Number(lo), Number(hi), pages.value * times);
            split.Success? && |split.value| <= pages.value * times && Tiles(split.value, lo, hi, maxPageSize)
  {
    var r := hi - lo + 1;
    var pages := Ceil(r, maxPageSize);
    assert GetLogsPagesForRange(Number(lo), Number(hi), Some(maxPageSize)) == Success(pages);
    CeilCovers(r, maxPageSize);
    EnoughPages(r, maxPageSize, pages, times);
    SplitTiles(lo, hi, pages * times);
    WiderTiles(Split(Number(lo), Number(hi), pages * times).value, lo, hi, Ceil(r, pages * times), maxPageSize);
  }

  lemma EnoughPages(r: nat, size: nat, pages: nat, times: nat)
    requires r > 0 && size > 0 && pages > 0 && times > 0 && r <= size * pages
    ensures pages * times > 0 && Ceil(r, pages * times) <= size
  {
    assert pages * times >= pages;
    assert size * (pages * times) >= size * pages;
    assert (pages * times) * size == size * (pages * times);
    CeilAtMost(r, pages * times, size);
  }

  lemma WiderTiles(pages: seq<Page>, lo: nat, hi: nat, size: nat, size': nat)
    requires Tiles(pages, lo, hi, size) && size <= size'
    ensures Tiles(pages, lo, hi, size')
  {
    forall i | 0 <= i < |pages| ensures NonEmptyPage(pages[i], size') { assert NonEmptyPage(pages[i], size); }
  }

  // ---------- fetching ----------

  datatype Fetch = Fetch(error: Option<QueryError>, calls: nat)

  /** One page is asked for until it is delivered, at most a hundred times. */
  function FetchPage(node: nat -> Reply, calls: nat, attempts: nat): Fetch
    requires attempts < MAX_ATTEMPTS
    decreases MAX_ATTEMPTS - attempts
  {
    match node(calls)
    case Delivered => Fetch(None, calls + 1)
    case Failed(e) => if attempts + 1 >= MAX_ATTEMPTS then Fetch(Some(e), calls + 1)
        else FetchPage(node, calls + 1, attempts + 1)
  }

  method GetPageWithRetries(node: nat -> Reply, calls: nat) returns (f: Fetch)
    ensures f == FetchPage(node, calls, 0)
    // it stops at the first delivery, or at the hundredth failure, which is the one it reports
    ensures calls < f.calls <= calls + 100
    ensures forall n: nat :: calls <= n < f.calls - 1 ==> node(n).Failed?
    ensures f.error.None? <==> node(f.calls - 1).Delivered?
    ensures f.error.Some? ==> f.calls == calls + 100 && node(f.calls - 1) == Failed(f.error.value)
  {
    var attempts, made := 0, calls;
    while true
      invariant attempts < MAX_ATTEMPTS && FetchPage(node, made, attempts) == FetchPage(node, calls, 0)
      invariant made == calls + attempts && forall n: nat :: calls <= n < made ==> node(n).Failed?
      decreases MAX_ATTEMPTS - attempts
    {
      var reply := node(made);
      made := made + 1;
      if reply.Delivered? { return Fetch(None, made); }
      attempts := attempts + 1;
      if attempts >= MAX_ATTEMPTS { return Fetch(Some(reply.error), made); }
    }
  }

  datatype Round = Round(fetched: nat, error: Option<QueryError>, calls: nat)

  /** The pages are fetched in order, from the i-th, until one fails for good. */
  function FetchFrom(node: nat -> Reply, calls: nat, pages: seq<Page>, i: nat): (round: Round)
    requires i <= |pages|
    ensures i <= round.fetched <= |pages| && (round.error.None? <==> round.fetched == |pages|)
    decreases |pages| - i
  {
    if i == |pages| then Round(i, None, calls)
    else
      var f := FetchPage(node, calls, 0);
      if f.error.Some? then Round(i, f.error, f.calls) else FetchFrom(node, f.calls, pages, i + 1)
  }

  function FetchPages(node: nat -> Reply, calls: nat, pages: seq<Page>): Round
  {
    FetchFrom(node, calls, pages, 0)
  }

  /** The rounds of a query: the logs collected in each abandoned round, and how the last round ended. */
  datatype Rounds<E> = Rounds(abandoned: seq<seq<E>>, outcome: Result<seq<E>, QueryError>)

  function FetchRounds<E>(node: nat -> Reply, calls: nat, chain: Chain<E>, fromBlock: BlockTag, toBlock: BlockTag,
                          pagesCurrent: nat): Rounds<E>
    requires pagesCurrent > 0
    decreases 4 * MAX_SPLIT + 4 - pagesCurrent
  {
    var split := Split(fromBlock, toBlock, pagesCurrent);
    if split.Failure? then Rounds([], Failure(split.error))
    else
      var round := FetchPages(node, calls, split.value);
      var collected := AllLogs(chain, split.value[..round.fetched]);
      if round.error.None? then Rounds([], Success(collected))
      else if round.error.value != QueryReturnedMoreThan then Rounds([], Failure(round.error.value))
      else if pagesCurrent > MAX_SPLIT then Rounds([], Failure(TooManyEventsAfterSplitting(pagesCurrent)))
      else
        var rest := FetchRounds(node, round.calls, chain, fromBlock, toBlock, pagesCurrent * 4);
        Rounds([collected] + rest.abandoned, rest.outcome)
  }

  datatype Options = Options(fromBlock: Option<BlockTag>, toBlock: Option<BlockTag>)

  datatype Limits = Limits(maxPageSize: Option<nat>, maxPageCount: nat)

  ghost predicate ValidLimits(limits: Limits)
  {
    limits.maxPageSize.Some? ==> limits.maxPageSize.value > 0
  }

  /** The range queried: from block 1 to 'latest' by default, 'latest' made a number when pages are limited. */
  function EffectiveRange(options: Options, limits: Limits, blockNumber: nat): Page
  {
    var fromBlock := if options.fromBlock.Some? then options.fromBlock.value else Number(1);
    var toBlock := if options.toBlock.Some? then options.toBlock.value else Latest;
    if limits.maxPageSize.Some? && toBlock.Latest? then
      Page(fromBlock, Number(if fromBlock.Number? && fromBlock.n > blockNumber then fromBlock.n else blockNumber))
    else
      Page(fromBlock, toBlock)
  }

  // ---------- what a query promises, from its options, limits and the chain alone ----------

  /** The first block asked for, block 1 by default. */
  ghost function StartOf<E>(chain: Chain<E>, options: Options): nat
  {
    match options.fromBlock
    case None => 1
    case Some(Number(n)) => n
    case Some(Latest) => chain.head
  }

  /** The last block asked for. Without one it is the head of the chain; where pages are limited, the current block
      number, or the first block where that lies behind it. */
  ghost function EndOf<E>(chain: Chain<E>, options: Options, limits: Limits, blockNumber: nat): nat
  {
    if options.toBlock.Some? && options.toBlock.value.Number? then options.toBlock.value.n
    else if limits.maxPageSize.None? then chain.head
    else if options.fromBlock != Some(Latest) && blockNumber < StartOf(chain, options) then StartOf(chain, options)
    else blockNumber
  }

  /** Two numbers, the first greater than the second. */
  ghost predicate Backwards(options: Options)
  {
    && options.toBlock.Some? && options.toBlock.value.Number?
    && match options.fromBlock
       case None => options.toBlock.value.n < 1
       case Some(Number(n)) => options.toBlock.value.n < n
       case Some(Latest) => false
  }

  /** The least number of pages that holds the range, and one for an unlimited page size. */
  ghost predicate PagesNeeded(maxPageSize: Option<nat>, lo: nat, hi: nat, pages: nat)
  {
    if maxPageSize.None? then pages == 1
    else
      && pages >= 1 && hi - lo + 1 <= maxPageSize.value * pages
      && (pages > 1 ==> maxPageSize.value * (pages - 1) < hi - lo + 1)
  }

  /** A log of the range is never missing: what abandoned rounds had collected, at most three times a proper prefix of
      the range, and then the whole range. A node that delivers every page answers with the range alone. */
  ghost predicate RangePromise<E(!new)>(node: nat -> Reply, chain: Chain<E>, lo: nat, hi: nat,
                                  events: Result<seq<E>, QueryError>)
  {
    && ((forall n: nat :: node(n).Delivered?) ==> events == Success(BlockLogs(chain, lo, hi)))
    && (events.Success? ==>
          exists abandoned: seq<seq<E>> ::
            && |abandoned| <= 3 && (forall i :: 0 <= i < |abandoned| ==> PrefixLogs(chain, lo, hi, abandoned[i]))
            && events.value == Flatten(abandoned) + BlockLogs(chain, lo, hi))
  }

  /** The whole promise of a query. */
  ghost predicate QueryPromise<E(!new)>(node: nat -> Reply, chain: Chain<E>, options: Options, limits: Limits,
                                  blockNumber: nat, events: Result<seq<E>, QueryError>)
  {
    var lo, hi := StartOf(chain, options), EndOf(chain, options, limits, blockNumber);
    if Backwards(options) then events == Failure(FromAfterTo)
    else if limits.maxPageSize.Some? && options.fromBlock == Some(Latest) then events == Failure(OnlyNumbersSupported)
    else
      exists pages: nat ::
        && PagesNeeded(limits.maxPageSize, lo, hi, pages)
        && if pages > limits.maxPageCount then events == Failure(NeedsTooManyPages(pages))
           else RangePromise(node, chain, lo, hi, events)
  }

  predicate After(a: BlockTag, b: BlockTag)
  {
    a.Number? && b.Number? && a.n > b.n
  }

  function Query<E>(node: nat -> Reply, chain: Chain<E>, options: Options, limits: Limits, blockNumber: nat): Rounds<E>
    requires ValidLimits(limits)
  {
    var range := EffectiveRange(options, limits, blockNumber);
    if After(range.fromBlock, range.toBlock) then Rounds([], Failure(FromAfterTo))
    else
      var pages := GetLogsPagesForRange(range.fromBlock, range.toBlock, limits.maxPageSize);
      if pages.Failure? then Rounds([], Failure(pages.error))
      else if pages.value > limits.maxPageCount then Rounds([], Failure(NeedsTooManyPages(pages.value)))
      else FetchRounds(node, 0, chain, range.fromBlock, range.toBlock, pages.value)
  }

  /** What the caller gets: everything collected, in every round. */
  function Answer<E>(rounds: Rounds<E>): Result<seq<E>, QueryError>
  {
    if rounds.outcome.Failure? then rounds.outcome else Success(Flatten(rounds.abandoned) + rounds.outcome.value)
  }

  method FetchRound<E>(node: nat -> Reply, calls: nat, chain: Chain<E>, rangeParts: seq<Page>, collected: seq<seq<E>>)
    returns (relayEventParts: seq<seq<E>>, error: Option<QueryError>, made: nat)
    ensures var round := FetchPages(node, calls, rangeParts);
            error == round.error && made == round.calls &&
            Flatten(relayEventParts) == Flatten(collected) + AllLogs(chain, rangeParts[..round.fetched])
  {
    relayEventParts, made := collected, calls;
    assert Flatten(collected) == Flatten(collected) + AllLogs(chain, rangeParts[..0]);
    for i := 0 to |rangeParts|
      invariant FetchFrom(node, made, rangeParts, i) == FetchPages(node, calls, rangeParts)
      invariant Flatten(relayEventParts) == Flatten(collected) + AllLogs(chain, rangeParts[..i])
    {
      var f := GetPageWithRetries(node, made);
      made := f.calls;
      if f.error.Some? { return relayEventParts, f.error, made; }
      CollectPage(chain, collected, relayEventParts, rangeParts, i);
      relayEventParts := relayEventParts + [PageLogs(chain, rangeParts[i])];
    }
    error := None;
  }

  lemma OnePageMore<E>(chain: Chain<E>, pages: seq<Page>, i: nat)
    requires i < |pages|
    ensures AllLogs(chain, pages[..i + 1]) == AllLogs(chain, pages[..i]) + PageLogs(chain, pages[i])
  {
    assert pages[..i + 1][..i] == pages[..i];
  }

  lemma CollectPage<E>(chain: Chain<E>, before: seq<seq<E>>, parts: seq<seq<E>>, pages: seq<Page>, i: nat)
    requires i < |pages| && Flatten(parts) == Flatten(before) + AllLogs(chain, pages[..i])
    ensures Flatten(parts + [PageLogs(chain, pages[i])]) == Flatten(before) + AllLogs(chain, pages[..i + 1])
  {
    var page := PageLogs(chain, pages[i]);
    FlattenAppend(parts, [page]);
    assert Flatten([page]) == page;
    OnePageMore(chain, pages, i);
  }

  method GetPastEventsPaginated<E(!new)>(node: nat -> Reply, chain: Chain<E>, options: Options, limits: Limits,
                                   blockNumber: nat)
    returns (events: Result<seq<E>, QueryError>)
    requires ValidLimits(limits)
    ensures events == Answer(Query(node, chain, options, limits, blockNumber))
    ensures QueryPromise(node, chain, options, limits, blockNumber, events)
  {
    QueryKeepsItsPromise(node, chain, options, limits, blockNumber);
    var range := EffectiveRange(options, limits, blockNumber);
    if After(range.fromBlock, range.toBlock) { return Failure(FromAfterTo); }
    var pages := GetLogsPagesForRange(range.fromBlock, range.toBlock, limits.maxPageSize);
    if pages.Failure? { return Failure(pages.error); }
    var pagesCurrent := pages.value;
    if pagesCurrent > limits.maxPageCount { return Failure(NeedsTooManyPages(pagesCurrent)); }
    var relayEventParts: seq<seq<E>>, calls := [], 0;
    ghost var all := FetchRounds(node, 0, chain, range.fromBlock, range.toBlock, pagesCurrent);
    while true
      invariant pagesCurrent > 0
      invariant Continues(all, relayEventParts,
                  FetchRounds(node, calls, chain, range.fromBlock, range.toBlock, pagesCurrent))
      decreases 4 * MAX_SPLIT + 4 - pagesCurrent
    {
      ghost var rest := FetchRounds(node, calls, chain, range.fromBlock, range.toBlock, pagesCurrent);
      var rangeParts := SplitRange(range.fromBlock, range.toBlock, pagesCurrent);
      if rangeParts.Failure? { return Failure(rangeParts.error); }
      ghost var before := relayEventParts;
      var error;
      relayEventParts, error, calls := FetchRound(node, calls, chain, rangeParts.value, relayEventParts);
      if error.None? {
        LastRound(all, before, rest, relayEventParts);
        return Success(Flatten(relayEventParts));
      }
      if error.value != QueryReturnedMoreThan { return Failure(error.value); }
      if pagesCurrent > MAX_SPLIT { return Failure(TooManyEventsAfterSplitting(pagesCurrent)); }
      pagesCurrent := pagesCurrent * 4;
      NextRound(all, before, rest, relayEventParts);
    }
  }

  /** After some rounds, `parts` are collected and `rest` is to come. */
  ghost predicate Continues<E>(all: Rounds<E>, parts: seq<seq<E>>, rest: Rounds<E>)
  {
    all.outcome == rest.outcome && Flatten(all.abandoned) == Flatten(parts) + Flatten(rest.abandoned)
  }

  lemma LastRound<E>(all: Rounds<E>, before: seq<seq<E>>, rest: Rounds<E>, parts: seq<seq<E>>)
    requires Continues(all, before, rest) && rest.abandoned == [] && rest.outcome.Success?
    requires Flatten(parts) == Flatten(before) + rest.outcome.value
    ensures Answer(all) == Success(Flatten(parts))
  {
    assert Flatten(before) + Flatten(rest.abandoned) == Flatten(before);
  }

  lemma NextRound<E>(all: Rounds<E>, before: seq<seq<E>>, rest: Rounds<E>, parts: seq<seq<E>>)
    requires Continues(all, before, rest) && rest.abandoned != []
    requires Flatten(parts) == Flatten(before) + rest.abandoned[0]
    ensures Continues(all, parts, Rounds(rest.abandoned[1..], rest.outcome))
  {
  }

  // ---------- what a query returns ----------

  lemma {:induction false} LogsJoin<E>(chain: Chain<E>, lo: nat, mid: nat, hi: nat)
    requires lo <= mid < hi
    ensures LogsBetween(chain, lo, mid) + LogsBetween(chain, mid + 1, hi) == LogsBetween(chain, lo, hi)
    decreases mid - lo
  {
    if lo < mid { LogsJoin(chain, lo + 1, mid, hi); }
  }

  /** Pages that tile a range hold, up to any page, the range's logs up to that page. */
  lemma {:induction false} TilesPrefix<E>(chain: Chain<E>, pages: seq<Page>, lo: nat, hi: nat, size: nat, k: nat)
    requires Tiles(pages, lo, hi, size) && k <= |pages|
    ensures k > 0 ==> NonEmptyPage(pages[k - 1], size) && lo <= pages[k - 1].toBlock.n &&
                      AllLogs(chain, pages[..k]) == LogsBetween(chain, lo, pages[k - 1].toBlock.n)
    decreases k
  {
    if k > 0 {
      TilesPrefix(chain, pages, lo, hi, size, k - 1);
      assert NonEmptyPage(pages[k - 1], size);
      OnePageMore(chain, pages, k - 1);
      if k > 1 {
        assert Follows(pages[k - 2], pages[k - 1]);
        LogsJoin(chain, lo, pages[k - 2].toBlock.n, pages[k - 1].toBlock.n);
      }
    }
  }

  /** The logs of a proper, possibly empty, prefix of the range. */
  ghost predicate PrefixLogs<E>(chain: Chain<E>, lo: nat, hi: nat, logs: seq<E>)
  {
    logs == [] || exists b: nat :: lo <= b < hi && logs == BlockLogs(chain, lo, b)
  }

  lemma TilesEndRises(pages: seq<Page>, lo: nat, hi: nat, size: nat, k: nat)
    requires Tiles(pages, lo, hi, size) && 0 < k < |pages|
    ensures NonEmptyPage(pages[k - 1], size) && pages[k - 1].toBlock.n < hi
    decreases |pages| - k
  {
    assert Follows(pages[k - 1], pages[k]) && NonEmptyPage(pages[k], size) && NonEmptyPage(pages[k - 1], size);
    if k + 1 < |pages| { TilesEndRises(pages, lo, hi, size, k + 1); }
  }

  /** How often the page number can still be multiplied by four. */
  function Resplits(pagesCurrent: nat): nat
  {
    if pagesCurrent > 16 then 0 else if pagesCurrent > 4 then 1 else if pagesCurrent > 1 then 2 else 3
  }

  lemma {:induction false} AllDelivered(node: nat -> Reply, calls: nat, pages: seq<Page>, i: nat)
    requires i <= |pages| && forall n: nat :: node(n).Delivered?
    ensures FetchFrom(node, calls, pages, i).error.None?
    decreases |pages| - i
  {
    if i < |pages| {
      assert node(calls).Delivered?;
      AllDelivered(node, calls + 1, pages, i + 1);
    }
  }

  lemma {:induction false} RoundsOfRange<E>(node: nat -> Reply, calls: nat, chain: Chain<E>, lo: nat, hi: nat,
                                            pagesCurrent: nat)
    requires lo <= hi && pagesCurrent > 0
    ensures var rounds := FetchRounds(node, calls, chain, Number(lo), Number(hi), pagesCurrent);
            && |rounds.abandoned| <= Resplits(pagesCurrent)
            && (forall i :: 0 <= i < |rounds.abandoned| ==> PrefixLogs(chain, lo, hi, rounds.abandoned[i]))
            && (rounds.outcome.Success? ==> rounds.outcome.value == BlockLogs(chain, lo, hi))
            && ((forall n: nat :: node(n).Delivered?) ==> rounds.outcome.Success? && rounds.abandoned == [])
    decreases 4 * MAX_SPLIT + 4 - pagesCurrent
  {
    SplitTiles(lo, hi, pagesCurrent);
    var pages := Split(Number(lo), Number(hi), pagesCurrent).value;
    var size := Ceil(hi - lo + 1, pagesCurrent);
    var round := FetchPages(node, calls, pages);
    TilesPrefix(chain, pages, lo, hi, size, round.fetched);
    if round.fetched > 0 { LogsBetweenAreBlockLogs(chain, lo, pages[round.fetched - 1].toBlock.n); }
    if forall n: nat :: node(n).Delivered? { AllDelivered(node, calls, pages, 0); }
    if round.error.None? {
      assert pages[..|pages|] == pages;
    } else if round.error.value == QueryReturnedMoreThan && pagesCurrent <= MAX_SPLIT {
      if round.fetched > 0 { TilesEndRises(pages, lo, hi, size, round.fetched); }
      RoundsOfRange(node, round.calls, chain, lo, hi, pagesCurrent * 4);
    }
  }

  /** A query over 'latest' is one page: it is delivered whole or it fails. */
  lemma RoundsOfLatest<E>(node: nat -> Reply, calls: nat, chain: Chain<E>, fromBlock: BlockTag, toBlock: BlockTag)
    requires fromBlock.Latest? || toBlock.Latest?
    ensures var rounds := FetchRounds(node, calls, chain, fromBlock, toBlock, 1);
            && (rounds.outcome.Success? ==>
                  && rounds.abandoned == []
                  && rounds.outcome.value == BlockLogs(chain, BlockOf(chain, fromBlock), BlockOf(chain, toBlock)))
            && ((forall n: nat :: node(n).Delivered?) ==> rounds.outcome.Success?)
  {
    var pages := [Page(fromBlock, toBlock)];
    assert Split(fromBlock, toBlock, 1).value == pages;
    assert pages[..1] == pages && AllLogs(chain, pages) == PageLogs(chain, pages[0]);
    var round := FetchPages(node, calls, pages);
    var next := FetchRounds(node, round.calls, chain, fromBlock, toBlock, 4);
    assert next.outcome.Failure?;
    LogsBetweenAreBlockLogs(chain, BlockOf(chain, fromBlock), BlockOf(chain, toBlock));
    if forall n: nat :: node(n).Delivered? { AllDelivered(node, calls, pages, 0); }
  }

  lemma {:induction false} FlattenEmpty<E>(parts: seq<seq<E>>)
    ensures Flatten(parts) == [] <==> forall i :: 0 <= i < |parts| ==> parts[i] == []
  {
    if parts != [] { FlattenEmpty(parts[1..]); }
  }

  /** Every round refused, the page number grows fourfold while it is at most 16, and then the query gives up. */
  lemma {:induction false} RefusedThroughout<E>(node: nat -> Reply, calls: nat, chain: Chain<E>, lo: nat, hi: nat,
                                                pagesCurrent: nat)
    requires lo <= hi && pagesCurrent > 0 && forall n: nat :: node(n) == Failed(QueryReturnedMoreThan)
    ensures var rounds := FetchRounds(node, calls, chain, Number(lo), Number(hi), pagesCurrent);
            var times := Resplits(pagesCurrent);
            && |rounds.abandoned| == times
            && rounds.outcome == Failure(TooManyEventsAfterSplitting(
                 if times == 0 then pagesCurrent else if times == 1 then 4 * pagesCurrent
                 else if times == 2 then 16 * pagesCurrent else 64 * pagesCurrent))
    decreases 4 * MAX_SPLIT + 4 - pagesCurrent
  {
    SplitTiles(lo, hi, pagesCurrent);
    var pages := Split(Number(lo), Number(hi), pagesCurrent).value;
    PageThatFails(node, calls, 0, QueryReturnedMoreThan);
    var round := FetchPages(node, calls, pages);
    assert round.error == Some(QueryReturnedMoreThan);
    if pagesCurrent <= 16 {
      RefusedThroughout(node, round.calls, chain, lo, hi, pagesCurrent * 4);
    }
  }

  lemma CountIsNeeded(lo: nat, hi: nat, size: nat)
    requires lo <= hi && size > 0
    ensures PagesNeeded(Some(size), lo, hi, Ceil(hi - lo + 1, size))
  {
    var pages := Ceil(hi - lo + 1, size);
    CeilCovers(hi - lo + 1, size);
    if hi - lo + 1 <= size * (pages - 1) {
      CeilAtMost(hi - lo + 1, size, pages - 1);
    }
  }

  /** At most three re-splits; on success the answer is what abandoned rounds had collected, each a proper prefix of
      the range asked for, followed by the range's logs. */
  lemma PaginatedAnswer<E>(node: nat -> Reply, chain: Chain<E>, options: Options, limits: Limits, blockNumber: nat)
    requires ValidLimits(limits)
    ensures var rounds := Query(node, chain, options, limits, blockNumber);
            var lo, hi := StartOf(chain, options), EndOf(chain, options, limits, blockNumber);
            && (rounds.outcome.Success? ==>
                  && rounds.outcome.value == BlockLogs(chain, lo, hi) && |rounds.abandoned| <= 3
                  && forall i :: 0 <= i < |rounds.abandoned| ==> PrefixLogs(chain, lo, hi, rounds.abandoned[i]))
  {
    var range := EffectiveRange(options, limits, blockNumber);
    if !After(range.fromBlock, range.toBlock) {
      var pages := GetLogsPagesForRange(range.fromBlock, range.toBlock, limits.maxPageSize);
      if pages.Success? {
        if range.fromBlock.Number? && range.toBlock.Number? {
          RoundsOfRange(node, 0, chain, range.fromBlock.n, range.toBlock.n, pages.value);
        } else {
          RoundsOfLatest(node, 0, chain, range.fromBlock, range.toBlock);
        }
      }
    }
  }

  /** A query that gets past its guards asks for the range. */
  lemma RangeIsAnswered<E(!new)>(node: nat -> Reply, chain: Chain<E>, range: Page, pages: nat, lo: nat, hi: nat)
    requires !After(range.fromBlock, range.toBlock) && pages > 0
    requires lo == BlockOf(chain, range.fromBlock) && hi == BlockOf(chain, range.toBlock)
    requires range.fromBlock.Latest? || range.toBlock.Latest? ==> pages == 1
    ensures RangePromise(node, chain, lo, hi,
                         Answer(FetchRounds(node, 0, chain, range.fromBlock, range.toBlock, pages)))
  {
    var rounds := FetchRounds(node, 0, chain, range.fromBlock, range.toBlock, pages);
    if range.fromBlock.Number? && range.toBlock.Number? {
      RoundsOfRange(node, 0, chain, lo, hi, pages);
    } else {
      RoundsOfLatest(node, 0, chain, range.fromBlock, range.toBlock);
    }
    assert Flatten<E>([]) + BlockLogs(chain, lo, hi) == BlockLogs(chain, lo, hi);
  }

  lemma QueryKeepsItsPromise<E(!new)>(node: nat -> Reply, chain: Chain<E>, options: Options, limits: Limits,
                                blockNumber: nat)
    requires ValidLimits(limits)
    ensures QueryPromise(node, chain, options, limits, blockNumber,
                         Answer(Query(node, chain, options, limits, blockNumber)))
  {
    var range := EffectiveRange(options, limits, blockNumber);
    var lo, hi := StartOf(chain, options), EndOf(chain, options, limits, blockNumber);
    var pages := GetLogsPagesForRange(range.fromBlock, range.toBlock, limits.maxPageSize);
    if !Backwards(options) && pages.Success? {
      assert lo == BlockOf(chain, range.fromBlock) && hi == BlockOf(chain, range.toBlock);
      if limits.maxPageSize.Some? { CountIsNeeded(lo, hi, limits.maxPageSize.value); }
      assert PagesNeeded(limits.maxPageSize, lo, hi, pages.value);
      if pages.value <= limits.maxPageCount { RangeIsAnswered(node, chain, range, pages.value, lo, hi); }
    }
  }

  /** The answer holds the range once exactly when no abandoned round had collected a log. */
  lemma PaginatedIsUnpaginatedIff<E>(node: nat -> Reply, chain: Chain<E>, options: Options, limits: Limits,
                                     blockNumber: nat)
    requires ValidLimits(limits) && Query(node, chain, options, limits, blockNumber).outcome.Success?
    ensures var abandoned := Query(node, chain, options, limits, blockNumber).abandoned;
            Answer(Query(node, chain, options, limits, blockNumber))
                == Success(BlockLogs(chain, StartOf(chain, options), EndOf(chain, options, limits, blockNumber)))
            <==> forall i :: 0 <= i < |abandoned| ==> abandoned[i] == []
  {
    PaginatedAnswer(node, chain, options, limits, blockNumber);
    var repeated := Flatten(Query(node, chain, options, limits, blockNumber).abandoned);
    var all := BlockLogs(chain, StartOf(chain, options), EndOf(chain, options, limits, blockNumber));
    FlattenEmpty(Query(node, chain, options, limits, blockNumber).abandoned);
    if repeated != [] {
      assert |repeated + all| > |all|;
    } else {
      assert repeated + all == all;
    }
  }

  lemma {:induction false} PageThatFails(node: nat -> Reply, calls: nat, attempts: nat, error: QueryError)
    requires attempts < MAX_ATTEMPTS && forall n: nat :: calls <= n < calls + MAX_ATTEMPTS - attempts ==>
               node(n) == Failed(error)
    ensures FetchPage(node, calls, attempts) == Fetch(Some(error), calls + MAX_ATTEMPTS - attempts)
    decreases MAX_ATTEMPTS - attempts
  {
    if attempts + 1 < MAX_ATTEMPTS { PageThatFails(node, calls + 1, attempts + 1, error); }
  }

  lemma SecondPageRefused<E>(chain: Chain<E>, node: nat -> Reply)
    requires forall n: nat :: node(n) == if 1 <= n <= 100 then Failed(QueryReturnedMoreThan) else Delivered
    ensures FetchRounds(node, 0, chain, Number(1), Number(2), 2)
         == Rounds([chain.logs(1)], Success(chain.logs(1) + chain.logs(2)))
  {
    var one, two := Page(Number(1), Number(1)), Page(Number(2), Number(2));
    assert Steps(1, 2, 1) == [one, two];
    PageThatFails(node, 1, 0, QueryReturnedMoreThan);
    assert FetchPage(node, 0, 0) == Fetch(None, 1) && FetchPage(node, 101, 0) == Fetch(None, 102);
    assert FetchPage(node, 102, 0) == Fetch(None, 103);
    assert FetchFrom(node, 1, [one, two], 1) == Round(1, Some(QueryReturnedMoreThan), 101);
    assert FetchFrom(node, 102, [one, two], 1) == Round(2, None, 103);
    assert FetchPages(node, 0, [one, two]) == Round(1, Some(QueryReturnedMoreThan), 101);
    assert FetchPages(node, 101, [one, two]) == Round(2, None, 103);
    assert [one, two][..1] == [one] && [one, two][..2] == [one, two];
    assert AllLogs(chain, [one]) == chain.logs(1);
    assert AllLogs(chain, [one, two]) == chain.logs(1) + chain.logs(2);
    assert FetchRounds(node, 101, chain, Number(1), Number(2), 8) == Rounds([], Success(chain.logs(1) + chain.logs(2)));
  }

  /** Blocks 1 and 2, one page each: when the second page is refused, the re-split repeats the first. */
  lemma ResplitRepeatsLogs<E>(chain: Chain<E>, node: nat -> Reply)
    requires forall n: nat :: node(n) == if 1 <= n <= 100 then Failed(QueryReturnedMoreThan) else Delivered
    ensures Answer(Query(node, chain, Options(Some(Number(1)), Some(Number(2))), Limits(Some(1), 2), 0))
         == Success(chain.logs(1) + (chain.logs(1) + chain.logs(2)))
  {
    SecondPageRefused(chain, node);
    assert GetLogsPagesForRange(Number(1), Number(2), Some(1)) == Success(2);
    assert Flatten([chain.logs(1)]) == chain.logs(1);
  }
}
