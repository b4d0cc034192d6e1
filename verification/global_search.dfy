/**
 * The header's global search: whether a query searches blocks by height or
 * by hash, the order and labels of the results, and where a click leads.
 */
module GlobalSearch {
  import opened Wrappers
  import opened Js
  import opened FilterBuilder

  /** What `searchIndexer` does with a query: clear the results, or send a request. */
  datatype Plan = ClearResults | Request(input: string, height: Option<int>)

  /**
   * `searchIndexer(query)`: an empty query clears the results; otherwise
   * blocks are looked up by height when the query is all digits and the
   * known maximum height is at least its value, and by hash otherwise.
   */
  function PlanFor(query: string, maxHeight: Option<int>): (p: Plan)
    ensures p.ClearResults? <==> query == ""
    ensures p.Request? ==> p.input == query
    ensures p.Request? ==> (p.height.Some? <==> DigitsOnly(query) && maxHeight.Some? && DigitsValue(query) <= maxHeight.value)
    ensures p.Request? && p.height.Some? ==> p.height.value == DigitsValue(query)
  {
    if query == "" then ClearResults
    else if DigitsOnly(query) && maxHeight.Some? && DigitsValue(query) <= maxHeight.value then Request(query, Some(DigitsValue(query)))
    else Request(query, None)
  }

  /** A height up to the maximum, typed as its decimal form, is searched by height. */
  lemma SearchByHeight(height: nat, maxHeight: int)
    requires height <= maxHeight
    ensures PlanFor(NatToString(height), Some(maxHeight)) == Request(NatToString(height), Some(height))
  {
    NatToStringValue(height);
  }

  /** A height above the maximum, or no maximum yet, falls back to the hash search. */
  lemma SearchByHashAboveMax(height: nat, maxHeight: Option<int>)
    requires maxHeight.None? || height > maxHeight.value
    ensures PlanFor(NatToString(height), maxHeight) == Request(NatToString(height), None)
  {
    NatToStringValue(height);
  }

  datatype Kind = BlockResult | TransactionResult | SettlementResult

  /** `SearchResult`: its type, the hash it leads to and its label. */
  datatype SearchResult = SearchResult(kind: Kind, hash: string, caption: string)

  datatype BlockHit = BlockHit(hash: string, height: int)
  datatype TransactionHit = TransactionHit(hash: string, methodId: string)
  datatype SettlementHit = SettlementHit(transactionHash: string, promisedMessagesHash: string)

  /** `res.data`: blocks, transactions and settlements, each possibly missing. */
  datatype SearchData = SearchData(blocks: Option<seq<BlockHit>>, transactions: Option<seq<TransactionHit>>,
                                   settlements: Option<seq<SettlementHit>>)

  /** `"Block #" + height`. */
  function BlockEntry(b: BlockHit): (r: SearchResult)
    ensures r.kind == BlockResult && r.hash == b.hash
  {
    SearchResult(BlockResult, b.hash, "Block #" + IntToString(b.height))
  }

  /** A block's caption is "Block #" followed by the height's decimal numeral, which reads back as the height. */
  lemma BlockCaption(b: BlockHit)
    ensures |BlockEntry(b).caption| > 7 && BlockEntry(b).caption[..7] == "Block #"
    ensures BlockEntry(b).caption[7..] == IntToString(b.height) && CanonicalInt(BlockEntry(b).caption[7..])
    ensures ToNumber(BlockEntry(b).caption[7..]) == Finite(b.height)
  {
    ToNumberIntToString(b.height);
    var caption := BlockEntry(b).caption;
    assert caption[..7] == "Block #" && caption[7..] == IntToString(b.height);
  }

  /** `"Transaction " + hash.substring(0, 8) + "..."`. */
  function TransactionEntry(t: TransactionHit): (r: SearchResult)
    ensures r.kind == TransactionResult && r.hash == t.hash
  {
    SearchResult(TransactionResult, t.hash, "Transaction " + Take(t.hash, 8) + "...")
  }

  /** A transaction's caption: "Transaction ", then at most the first 8 hash characters, then "...". */
  lemma TransactionCaption(t: TransactionHit)
    ensures var c := TransactionEntry(t).caption;
            |c| == 15 + (if |t.hash| < 8 then |t.hash| else 8) &&
            c[..12] == "Transaction " && StartsWith(t.hash, c[12..|c| - 3]) && c[|c| - 3..] == "..."
  {
    CaptionParts("Transaction ", t.hash);
  }

  /** `"Settlement " + transactionHash.substring(0, 8) + "..."`; the result leads to the settlement's transaction hash. */
  function SettlementEntry(s: SettlementHit): (r: SearchResult)
    ensures r.kind == SettlementResult && r.hash == s.transactionHash
  {
    SearchResult(SettlementResult, s.transactionHash, "Settlement " + Take(s.transactionHash, 8) + "...")
  }

  /** A settlement's caption: "Settlement ", then at most the first 8 hash characters, then "...". */
  lemma SettlementCaption(s: SettlementHit)
    ensures var c := SettlementEntry(s).caption;
            |c| == 14 + (if |s.transactionHash| < 8 then |s.transactionHash| else 8) &&
            c[..11] == "Settlement " && StartsWith(s.transactionHash, c[11..|c| - 3]) && c[|c| - 3..] == "..."
  {
    CaptionParts("Settlement ", s.transactionHash);
  }

  /** The pieces of `prefix + hash.substring(0, 8) + "..."`. */
  lemma CaptionParts(prefix: string, hash: string)
    ensures var c := prefix + Take(hash, 8) + "...";
            |c| == |prefix| + |Take(hash, 8)| + 3 &&
            c[..|prefix|] == prefix && c[|prefix|..|c| - 3] == Take(hash, 8) && c[|c| - 3..] == "..."
  {
    var t := Take(hash, 8);
    var c := prefix + t + "...";
    assert c[..|prefix|] == prefix;
    assert c[|prefix|..|c| - 3] == t;
    assert c[|c| - 3..] == "...";
  }

  function BlockEntries(bs: seq<BlockHit>): (rs: seq<SearchResult>)
    ensures |rs| == |bs| && forall i :: 0 <= i < |bs| ==> rs[i] == BlockEntry(bs[i])
  {
    if bs == [] then [] else BlockEntries(bs[..|bs| - 1]) + [BlockEntry(bs[|bs| - 1])]
  }

  function TransactionEntries(ts: seq<TransactionHit>): (rs: seq<SearchResult>)
    ensures |rs| == |ts| && forall i :: 0 <= i < |ts| ==> rs[i] == TransactionEntry(ts[i])
  {
    if ts == [] then [] else TransactionEntries(ts[..|ts| - 1]) + [TransactionEntry(ts[|ts| - 1])]
  }

  function SettlementEntries(ss: seq<SettlementHit>): (rs: seq<SearchResult>)
    ensures |rs| == |ss| && forall i :: 0 <= i < |ss| ==> rs[i] == SettlementEntry(ss[i])
  {
    if ss == [] then [] else SettlementEntries(ss[..|ss| - 1]) + [SettlementEntry(ss[|ss| - 1])]
  }

  /** The results of one response, grouped as the three loops push them. */
  function Assembled(bs: seq<BlockHit>, ts: seq<TransactionHit>, ss: seq<SettlementHit>): (rs: seq<SearchResult>)
    ensures |rs| == |bs| + |ts| + |ss|
  {
    BlockEntries(bs) + TransactionEntries(ts) + SettlementEntries(ss)
  }

  /** All blocks, then all transactions, then all settlements, each group in response order. */
  lemma AssembledOrder(bs: seq<BlockHit>, ts: seq<TransactionHit>, ss: seq<SettlementHit>, i: nat)
    requires i < |bs| + |ts| + |ss|
    ensures Assembled(bs, ts, ss)[i] ==
              if i < |bs| then BlockEntry(bs[i])
              else if i < |bs| + |ts| then TransactionEntry(ts[i - |bs|])
              else SettlementEntry(ss[i - |bs| - |ts|])
  {
    var a, b, c := BlockEntries(bs), TransactionEntries(ts), SettlementEntries(ss);
    var rs := a + b + c;
    assert Assembled(bs, ts, ss) == rs;
    if i < |a| {
      assert rs[i] == (a + b)[i] == a[i];
    } else if i < |a| + |b| {
      assert rs[i] == (a + b)[i] == b[i - |a|];
    } else {
      assert rs[i] == c[i - |a| - |b|];
    }
  }

  /**
   * The results a response yields: none without data; `None` when data has
   * no `blocks` (the unguarded `blocks.forEach` throws and the old results
   * stay); otherwise the assembled results.
   */
  function Found(data: Option<SearchData>): (found: Option<seq<SearchResult>>)
    ensures data.None? ==> found == Some([])
    ensures data.Some? ==> (found.None? <==> data.value.blocks.None?)
    ensures found.Some? && data.Some? ==>
              found.value == Assembled(data.value.blocks.value, data.value.transactions.GetOr([]), data.value.settlements.GetOr([]))
  {
    if data.None? then Some([])
    else if data.value.blocks.None? then None
    else Some(Assembled(data.value.blocks.value, data.value.transactions.GetOr([]), data.value.settlements.GetOr([])))
  }

  /** The three `forEach` loops pushing into `foundResults`. */
  method AssembleResults(data: Option<SearchData>) returns (found: Option<seq<SearchResult>>)
    ensures found == Found(data)
  {
    if data.None? {
      return Some([]);
    }
    if data.value.blocks.None? {
      return None;
    }
    var results := PushBlocks([], data.value.blocks.value);
    results := PushTransactions(results, data.value.transactions.GetOr([]));
    results := PushSettlements(results, data.value.settlements.GetOr([]));
    assert [] + BlockEntries(data.value.blocks.value) == BlockEntries(data.value.blocks.value);
    found := Some(results);
  }

  method PushBlocks(start: seq<SearchResult>, bs: seq<BlockHit>) returns (results: seq<SearchResult>)
    ensures results == start + BlockEntries(bs)
  {
    results := start;
    var i := 0;
    while i < |bs|
      invariant 0 <= i <= |bs|
      invariant results == start + BlockEntries(bs[..i])
    {
      assert bs[..i + 1][..i] == bs[..i];
      results := results + [BlockEntry(bs[i])];
      i := i + 1;
    }
    assert bs[..i] == bs;
  }

  method PushTransactions(start: seq<SearchResult>, ts: seq<TransactionHit>) returns (results: seq<SearchResult>)
    ensures results == start + TransactionEntries(ts)
  {
    results := start;
    var i := 0;
    while i < |ts|
      invariant 0 <= i <= |ts|
      invariant results == start + TransactionEntries(ts[..i])
    {
      assert ts[..i + 1][..i] == ts[..i];
      results := results + [TransactionEntry(ts[i])];
      i := i + 1;
    }
    assert ts[..i] == ts;
  }

  method PushSettlements(start: seq<SearchResult>, ss: seq<SettlementHit>) returns (results: seq<SearchResult>)
    ensures results == start + SettlementEntries(ss)
  {
    results := start;
    var i := 0;
    while i < |ss|
      invariant 0 <= i <= |ss|
      invariant results == start + SettlementEntries(ss[..i])
    {
      assert ss[..i + 1][..i] == ss[..i];
      results := results + [SettlementEntry(ss[i])];
      i := i + 1;
    }
    assert ss[..i] == ss;
  }

  /** The results after a search: the found ones, or the old ones when the request or the assembly fails. */
  function ResultsAfter(old_results: seq<SearchResult>, response: Option<Option<SearchData>>): (rs: seq<SearchResult>)
    ensures response.None? ==> rs == old_results
    ensures response.Some? && Found(response.value).None? ==> rs == old_results
    ensures response.Some? && Found(response.value).Some? ==> rs == Found(response.value).value
  {
    if response.None? || Found(response.value).None? then old_results else Found(response.value).value
  }

  /** The page a result leads to. */
  function ResultPath(r: SearchResult): (path: string)
    ensures r.kind == BlockResult ==> path == "/blocks/" + r.hash
    ensures r.kind == TransactionResult ==> path == "/transactions/" + r.hash
    ensures r.kind == SettlementResult ==> path == "/settlements/" + r.hash
  {
    match r.kind
    case BlockResult => "/blocks/" + r.hash
    case TransactionResult => "/transactions/" + r.hash
    case SettlementResult => "/settlements/" + r.hash
  }

  /** `handleResultClick`: the page pushed, then an empty query and a hidden result list. */
  datatype ClickEffect = ClickEffect(pushed: string, query: string, showResults: bool)

  function HandleResultClick(r: SearchResult): (e: ClickEffect)
    ensures e.pushed == ResultPath(r) && e.query == "" && !e.showResults
  {
    ClickEffect(ResultPath(r), "", false)
  }

  /** A click on an assembled block result opens that block. */
  lemma BlockResultOpensBlock(b: BlockHit)
    ensures HandleResultClick(BlockEntry(b)).pushed == "/blocks/" + b.hash
    ensures PlanFor(HandleResultClick(BlockEntry(b)).query, None).ClearResults?
  {
  }

  /** The result list shows when focused with results. */
  predicate ShowResultList(showResults: bool, results: seq<SearchResult>): (b: bool)
    ensures b ==> showResults && results != []
    ensures showResults && results != [] ==> b
  {
    showResults && |results| > 0
  }

  /** "No results found" shows when focused, queried, idle and empty. */
  predicate ShowNoResults(showResults: bool, query: string, results: seq<SearchResult>, loading: bool): (b: bool)
    ensures b ==> showResults && query != "" && results == [] && !loading
    ensures showResults && query != "" && results == [] && !loading ==> b
  {
    showResults && query != "" && |results| == 0 && !loading
  }

  /** The result list and "No results found" never show together. */
  lemma ResultPanelsExclusive(showResults: bool, query: string, results: seq<SearchResult>, loading: bool)
    ensures !(ShowResultList(showResults, results) && ShowNoResults(showResults, query, results, loading))
  {
  }

  /** After a result is clicked, neither the list nor "No results found" shows. */
  lemma ClickClosesResults(r: SearchResult, results: seq<SearchResult>, loading: bool)
    ensures !ShowResultList(HandleResultClick(r).showResults, results)
    ensures !ShowNoResults(HandleResultClick(r).showResults, HandleResultClick(r).query, results, loading)
  {
  }
}
