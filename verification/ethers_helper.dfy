/**
 * The on-chain confirmation helper (app/lib/ethers-helper.ts): `getBaseRpcUrl` and the
 * control flow of `waitForTransactionHash`. The JSON-RPC provider is an oracle: one
 * answer to `getTransaction`, the answer to the `i`-th `getTransactionReceipt` (counting
 * from 0), and one answer to `waitForTransaction`. Sleeps are recorded as calls.
 */
module EthersHelper {
  import opened Wrappers
  import opened JsString

  const SepoliaRpcUrl: string := "https://sepolia.base.org"
  const MainnetRpcUrl: string := "https://mainnet.base.org"

  /** Receipt queries made by the polling loop at most. */
  const MaxAttempts: nat := 30

  /** Milliseconds slept between two receipt queries. */
  const PollInterval: int := 2000

  /** Length of a full `0x`-prefixed 32-byte transaction hash. */
  const FullHashLength: nat := 66

  /** `getBaseRpcUrl`: the Base Sepolia endpoint on testnet, mainnet otherwise. */
  function GetBaseRpcUrl(testnet: bool): (url: string)
    ensures testnet ==> url == SepoliaRpcUrl
    ensures !testnet ==> url == MainnetRpcUrl
  {
    if testnet then SepoliaRpcUrl else MainnetRpcUrl
  }

  lemma RpcUrlsDiffer()
    ensures GetBaseRpcUrl(true) != GetBaseRpcUrl(false)
  {
    assert GetBaseRpcUrl(true)[8] != GetBaseRpcUrl(false)[8];
  }

  /** `provider.getTransaction(hash)`: a transaction, `null`, or a thrown error. */
  datatype TxLookup = TxFound | TxNull | TxLookupError

  /** `provider.getTransactionReceipt(hash)`: a receipt with its hash, `null`, or a
      thrown error (whatever its code). */
  datatype ReceiptReply = Receipt(hash: string) | NoReceipt | ReceiptError(code: string)

  /** `provider.waitForTransaction(hash, 1, timeout)`: a receipt, `null`, or a thrown error. */
  datatype WaitReply = WaitReceipt(hash: string) | WaitNull | WaitError(message: string)

  /** The provider's answers; `constructionFails` is an exception raised while the
      provider is set up, the only one the outer `try` can catch. */
  datatype Provider = Provider(
    constructionFails: bool,
    getTransaction: TxLookup,
    receipts: nat -> ReceiptReply,
    waitForTransaction: WaitReply)

  /** The calls the helper makes, in order. */
  datatype RpcCall =
    | Connect(url: string)
    | GetTransaction(hash: string)
    | GetTransactionReceipt(hash: string)
    | Sleep(ms: int)
    | WaitForTransaction(hash: string, confirmations: int, timeout: int)

  /** The returned string and the calls made to obtain it. */
  datatype HashRun = HashRun(hash: string, calls: seq<RpcCall>)

  /** The receipt polling loop's outcome: the receipt hash when one was found. */
  datatype LoopRun = LoopRun(found: Option<string>, calls: seq<RpcCall>)

  function ReceiptQueries(calls: seq<RpcCall>): nat
  {
    if |calls| == 0 then 0 else (if calls[0].GetTransactionReceipt? then 1 else 0) + ReceiptQueries(calls[1..])
  }

  function Sleeps(calls: seq<RpcCall>): nat
  {
    if |calls| == 0 then 0 else (if calls[0].Sleep? then 1 else 0) + Sleeps(calls[1..])
  }

  lemma {:induction false} CountsAppend(a: seq<RpcCall>, b: seq<RpcCall>)
    ensures ReceiptQueries(a + b) == ReceiptQueries(a) + ReceiptQueries(b)
    ensures Sleeps(a + b) == Sleeps(a) + Sleeps(b)
    decreases |a|
  {
    if |a| > 0 {
      assert (a + b)[0] == a[0];
      assert (a + b)[1..] == a[1..] + b;
      CountsAppend(a[1..], b);
    } else {
      assert a + b == b;
    }
  }

  /** A receipt reply that lets the loop go on: `null` or a swallowed error. */
  predicate Miss(reply: ReceiptReply)
  {
    !reply.Receipt?
  }

  /** Receipt queries at even positions and sleeps at odd ones, ending on a query: a
      sleep only ever separates two queries. */
  ghost predicate QueriesBetweenSleeps(calls: seq<RpcCall>, hash: string)
  {
    && (|calls| == 0 || |calls| % 2 == 1)
    && forall i :: 0 <= i < |calls| ==>
         calls[i] == (if i % 2 == 0 then GetTransactionReceipt(hash) else Sleep(PollInterval))
  }

  /** The `while (attempts < maxAttempts && !receipt)` loop from iteration `attempts`:
      a receipt ends it; a miss or an error counts as an attempt and is followed by a
      sleep unless it was the last attempt. */
  function ReceiptLoop(hash: string, receipts: nat -> ReceiptReply, attempts: nat): (run: LoopRun)
    requires attempts <= MaxAttempts
    ensures ReceiptQueries(run.calls) <= MaxAttempts - attempts
    ensures run.found.None? ==> ReceiptQueries(run.calls) == MaxAttempts - attempts
    ensures Sleeps(run.calls) + 1 == ReceiptQueries(run.calls) || run.calls == []
    ensures run.found.Some? ==> exists i :: attempts <= i < MaxAttempts && receipts(i) == Receipt(run.found.value)
    ensures forall c :: c in run.calls ==> c == GetTransactionReceipt(hash) || c == Sleep(PollInterval)
    ensures QueriesBetweenSleeps(run.calls, hash)
    ensures attempts < MaxAttempts <==> |run.calls| > 0
    decreases MaxAttempts - attempts
  {
    if attempts == MaxAttempts then LoopRun(None, [])
    else
      var query := GetTransactionReceipt(hash);
      match receipts(attempts)
      case Receipt(h) => LoopRun(Some(h), [query])
      case _ =>
        var rest := ReceiptLoop(hash, receipts, attempts + 1);
        if attempts + 1 < MaxAttempts then
          var calls := [query, Sleep(PollInterval)] + rest.calls;
          CountsAppend([query, Sleep(PollInterval)], rest.calls);
          QuerySleepBefore(hash, rest.calls);
          LoopRun(rest.found, calls)
        else
          LoopRun(rest.found, [query])
  }

  /** A query and a sleep in front of a non-empty alternating log keep it alternating,
      made only of receipt queries and sleeps. */
  lemma QuerySleepBefore(hash: string, rest: seq<RpcCall>)
    requires QueriesBetweenSleeps(rest, hash) && |rest| > 0
    ensures QueriesBetweenSleeps([GetTransactionReceipt(hash), Sleep(PollInterval)] + rest, hash)
    ensures forall c :: c in rest ==> c == GetTransactionReceipt(hash) || c == Sleep(PollInterval)
  {
    var calls := [GetTransactionReceipt(hash), Sleep(PollInterval)] + rest;
    assert forall i :: 2 <= i < |calls| ==> calls[i] == rest[i - 2];
    forall c | c in rest ensures c == GetTransactionReceipt(hash) || c == Sleep(PollInterval) {
      var i :| 0 <= i < |rest| && rest[i] == c;
    }
  }

  /** The fast path applies to a `0x`-prefixed string of exactly 66 characters. */
  predicate LooksLikeFullHash(s: string)
  {
    |s| == FullHashLength && StartsWith(s, "0x")
  }

  /** `waitForTransactionHash(txHashOrId, testnet, timeout)`: connect to the endpoint
      for the network, then confirm on that provider. It never throws: the result is
      the input itself or a hash the provider supplied. */
  function WaitForTransactionHash(txHashOrId: string, testnet: bool, timeout: int, provider: Provider): (run: HashRun)
    ensures |run.calls| > 0 && run.calls[0] == Connect(GetBaseRpcUrl(testnet))
    ensures || run.hash == txHashOrId
            || (exists i :: 0 <= i < MaxAttempts && provider.receipts(i) == Receipt(run.hash))
            || provider.waitForTransaction == WaitReceipt(run.hash)
    ensures ReceiptQueries(run.calls) <= MaxAttempts
    ensures Sleeps(run.calls) <= MaxAttempts - 1
  {
    var connect := [Connect(GetBaseRpcUrl(testnet))];
    var rest := AfterConnect(txHashOrId, timeout, provider);
    CountsAppend(connect, rest.calls);
    HashRun(rest.hash, connect + rest.calls)
  }

  /** Everything `waitForTransactionHash` does after naming the endpoint: a provider
      that cannot be built gives back the input; a full hash the provider knows is
      returned at once; otherwise the receipt loop runs, and after thirty misses
      `waitForTransaction` has the last word. The network plays no part here. */
  function AfterConnect(txHashOrId: string, timeout: int, provider: Provider): (run: HashRun)
    ensures provider.constructionFails ==> run == HashRun(txHashOrId, [])
    ensures || run.hash == txHashOrId
            || (exists i :: 0 <= i < MaxAttempts && provider.receipts(i) == Receipt(run.hash))
            || provider.waitForTransaction == WaitReceipt(run.hash)
    ensures ReceiptQueries(run.calls) <= MaxAttempts
    ensures Sleeps(run.calls) <= MaxAttempts - 1
  {
    if provider.constructionFails then HashRun(txHashOrId, [])
    else
      var fast := LooksLikeFullHash(txHashOrId);
      var lookup := if fast then [GetTransaction(txHashOrId)] else [];
      if fast && provider.getTransaction == TxFound then HashRun(txHashOrId, lookup)
      else
        var loop := ReceiptLoop(txHashOrId, provider.receipts, 0);
        CountsAppend(lookup, loop.calls);
        if loop.found.Some? then HashRun(loop.found.value, lookup + loop.calls)
        else
          var wait := [WaitForTransaction(txHashOrId, 1, timeout)];
          CountsAppend(lookup + loop.calls, wait);
          match provider.waitForTransaction
          case WaitReceipt(h) =>
            if h != "" then HashRun(h, lookup + loop.calls + wait) else HashRun(txHashOrId, lookup + loop.calls + wait)
          case _ => HashRun(txHashOrId, lookup + loop.calls + wait)
  }

  /** A full hash the provider knows is returned unchanged, with no receipt polling. */
  lemma FastPath(txHashOrId: string, testnet: bool, timeout: int, provider: Provider)
    requires LooksLikeFullHash(txHashOrId)
    requires !provider.constructionFails && provider.getTransaction == TxFound
    ensures var run := WaitForTransactionHash(txHashOrId, testnet, timeout, provider);
      && run.hash == txHashOrId
      && run.calls == [Connect(GetBaseRpcUrl(testnet)), GetTransaction(txHashOrId)]
      && ReceiptQueries(run.calls) == 0
  {
    CountsAppend([Connect(GetBaseRpcUrl(testnet))], [GetTransaction(txHashOrId)]);
  }

  /** The loop from iteration `attempts` finds the receipt of attempt `k` when all
      earlier replies were misses, after `k - attempts + 1` queries and as many sleeps
      minus one. */
  lemma {:induction false} LoopFindsReceipt(hash: string, receipts: nat -> ReceiptReply, attempts: nat, k: nat)
    requires attempts <= k < MaxAttempts
    requires forall i :: attempts <= i < k ==> Miss(receipts(i))
    requires receipts(k).Receipt?
    ensures var run := ReceiptLoop(hash, receipts, attempts);
      && run.found == Some(receipts(k).hash)
      && ReceiptQueries(run.calls) == k - attempts + 1
      && Sleeps(run.calls) == k - attempts
    decreases k - attempts
  {
    if attempts < k {
      assert Miss(receipts(attempts));
      LoopFindsReceipt(hash, receipts, attempts + 1, k);
    }
  }

  /** When the fast path does not return, a receipt first seen on attempt `k` (1-based,
      `k <= 30`) is returned after exactly `k` receipt queries and `k - 1` sleeps. */
  lemma ReceiptOnAttempt(txHashOrId: string, testnet: bool, timeout: int, provider: Provider, k: nat)
    requires 1 <= k <= MaxAttempts
    requires !provider.constructionFails
    requires !(LooksLikeFullHash(txHashOrId) && provider.getTransaction == TxFound)
    requires forall i :: 0 <= i < k - 1 ==> Miss(provider.receipts(i))
    requires provider.receipts(k - 1).Receipt?
    ensures var run := WaitForTransactionHash(txHashOrId, testnet, timeout, provider);
      && run.hash == provider.receipts(k - 1).hash
      && ReceiptQueries(run.calls) == k
      && Sleeps(run.calls) == k - 1
  {
    var loop := ReceiptLoop(txHashOrId, provider.receipts, 0);
    LoopFindsReceipt(txHashOrId, provider.receipts, 0, k - 1);
    var lookup := if LooksLikeFullHash(txHashOrId) then [GetTransaction(txHashOrId)] else [];
    var rest := AfterConnect(txHashOrId, timeout, provider);
    assert rest == HashRun(loop.found.value, lookup + loop.calls);
    CountsAppend(lookup, loop.calls);
    assert ReceiptQueries(lookup) == 0 && Sleeps(lookup) == 0;
    var connect := [Connect(GetBaseRpcUrl(testnet))];
    CountsAppend(connect, rest.calls);
  }

  /** Replacing every receipt error by `null` changes nothing: errors are swallowed
      and cost one attempt, like a miss. */
  lemma {:induction false} ErrorsActLikeMisses(hash: string, receipts: nat -> ReceiptReply, attempts: nat)
    requires attempts <= MaxAttempts
    ensures ReceiptLoop(hash, receipts, attempts)
         == ReceiptLoop(hash, (i: nat) => if receipts(i).ReceiptError? then NoReceipt else receipts(i), attempts)
    decreases MaxAttempts - attempts
  {
    if attempts < MaxAttempts {
      ErrorsActLikeMisses(hash, receipts, attempts + 1);
    }
  }

  /** A loop whose every remaining reply misses finds nothing. */
  lemma {:induction false} AllMissesFindNothing(hash: string, receipts: nat -> ReceiptReply, attempts: nat)
    requires attempts <= MaxAttempts
    requires forall i :: attempts <= i < MaxAttempts ==> Miss(receipts(i))
    ensures ReceiptLoop(hash, receipts, attempts).found.None?
    decreases MaxAttempts - attempts
  {
    if attempts < MaxAttempts {
      assert Miss(receipts(attempts));
      AllMissesFindNothing(hash, receipts, attempts + 1);
    }
  }

  /** When all 30 receipt queries miss, the `waitForTransaction` fallback decides: its
      non-empty receipt hash, or else the input itself. */
  lemma FallbackAfterThirtyMisses(txHashOrId: string, testnet: bool, timeout: int, provider: Provider)
    requires !provider.constructionFails
    requires !(LooksLikeFullHash(txHashOrId) && provider.getTransaction == TxFound)
    requires forall i :: 0 <= i < MaxAttempts ==> Miss(provider.receipts(i))
    ensures var run := WaitForTransactionHash(txHashOrId, testnet, timeout, provider);
      && ReceiptQueries(run.calls) == MaxAttempts
      && Sleeps(run.calls) == MaxAttempts - 1
      && run.calls[|run.calls| - 1] == WaitForTransaction(txHashOrId, 1, timeout)
      && (if provider.waitForTransaction.WaitReceipt? && provider.waitForTransaction.hash != ""
          then run.hash == provider.waitForTransaction.hash
          else run.hash == txHashOrId)
      && (var start := if LooksLikeFullHash(txHashOrId) then 2 else 1;
          && start + 2 * MaxAttempts == |run.calls|
          && QueriesBetweenSleeps(run.calls[start..|run.calls| - 1], txHashOrId)
          && run.calls[|run.calls| - 2] == GetTransactionReceipt(txHashOrId))
  {
    var rest := AfterConnect(txHashOrId, timeout, provider);
    ConfirmAfterThirtyMisses(txHashOrId, timeout, provider);
    var run := WaitForTransactionHash(txHashOrId, testnet, timeout, provider);
    assert run == HashRun(rest.hash, [Connect(GetBaseRpcUrl(testnet))] + rest.calls);
    ConnectInFront(txHashOrId, timeout, provider.waitForTransaction, LooksLikeFullHash(txHashOrId),
                   GetBaseRpcUrl(testnet), rest, run);
  }

  /** Putting the connection in front of the provider part after thirty misses keeps
      its counts, its final wait and its hash, and shifts its alternating stretch by one. */
  lemma ConnectInFront(hash: string, timeout: int, reply: WaitReply, fast: bool, url: string, rest: HashRun, run: HashRun)
    requires run == HashRun(rest.hash, [Connect(url)] + rest.calls)
    requires ReceiptQueries(rest.calls) == MaxAttempts && Sleeps(rest.calls) == MaxAttempts - 1
    requires rest.hash == (if reply.WaitReceipt? && reply.hash != "" then reply.hash else hash)
    requires var start := if fast then 1 else 0;
      && start + 2 * MaxAttempts == |rest.calls|
      && rest.calls[|rest.calls| - 1] == WaitForTransaction(hash, 1, timeout)
      && QueriesBetweenSleeps(rest.calls[start..|rest.calls| - 1], hash)
      && rest.calls[|rest.calls| - 2] == GetTransactionReceipt(hash)
    ensures && ReceiptQueries(run.calls) == MaxAttempts
      && Sleeps(run.calls) == MaxAttempts - 1
      && run.calls[|run.calls| - 1] == WaitForTransaction(hash, 1, timeout)
      && (if reply.WaitReceipt? && reply.hash != "" then run.hash == reply.hash else run.hash == hash)
      && (var start := if fast then 2 else 1;
          && start + 2 * MaxAttempts == |run.calls|
          && QueriesBetweenSleeps(run.calls[start..|run.calls| - 1], hash)
          && run.calls[|run.calls| - 2] == GetTransactionReceipt(hash))
  {
    CountsAppend([Connect(url)], rest.calls);
    var start := if fast then 2 else 1;
    assert run.calls[start..|run.calls| - 1] == rest.calls[start - 1..|rest.calls| - 1];
  }

  /** After thirty misses the provider part is the optional lookup, then 30 queries
      alternating with 29 sleeps, then one `waitForTransaction`, whose non-empty hash
      wins over the input. */
  lemma ConfirmAfterThirtyMisses(txHashOrId: string, timeout: int, provider: Provider)
    requires !provider.constructionFails
    requires !(LooksLikeFullHash(txHashOrId) && provider.getTransaction == TxFound)
    requires forall i :: 0 <= i < MaxAttempts ==> Miss(provider.receipts(i))
    ensures var rest := AfterConnect(txHashOrId, timeout, provider);
      && ReceiptQueries(rest.calls) == MaxAttempts
      && Sleeps(rest.calls) == MaxAttempts - 1
      && rest.calls[|rest.calls| - 1] == WaitForTransaction(txHashOrId, 1, timeout)
      && rest.hash == (if provider.waitForTransaction.WaitReceipt? && provider.waitForTransaction.hash != ""
                       then provider.waitForTransaction.hash else txHashOrId)
      && (var start := if LooksLikeFullHash(txHashOrId) then 1 else 0;
          && start + 2 * MaxAttempts == |rest.calls|
          && QueriesBetweenSleeps(rest.calls[start..|rest.calls| - 1], txHashOrId)
          && rest.calls[|rest.calls| - 2] == GetTransactionReceipt(txHashOrId))
  {
    var loop := ReceiptLoop(txHashOrId, provider.receipts, 0);
    AllMissesFindNothing(txHashOrId, provider.receipts, 0);
    var lookup := if LooksLikeFullHash(txHashOrId) then [GetTransaction(txHashOrId)] else [];
    var wait := [WaitForTransaction(txHashOrId, 1, timeout)];
    var calls := lookup + loop.calls + wait;
    assert AfterConnect(txHashOrId, timeout, provider).calls == calls;
    CountsAppend(lookup, loop.calls);
    CountsAppend(lookup + loop.calls, wait);
    assert ReceiptQueries(lookup) == 0 && Sleeps(lookup) == 0;
    QueriesOfLoop(txHashOrId, loop.calls);
    LoopBetweenLookupAndWait(txHashOrId, lookup, loop.calls, wait);
  }

  /** A full loop log between a lookup of at most one call and a single wait: the
      slice between them alternates and ends on a query. */
  lemma LoopBetweenLookupAndWait(hash: string, lookup: seq<RpcCall>, loop: seq<RpcCall>, wait: seq<RpcCall>)
    requires QueriesBetweenSleeps(loop, hash) && |loop| == 2 * MaxAttempts - 1 && |wait| == 1
    ensures var calls := lookup + loop + wait;
      && |lookup| + 2 * MaxAttempts == |calls|
      && QueriesBetweenSleeps(calls[|lookup|..|calls| - 1], hash)
      && calls[|calls| - 2] == GetTransactionReceipt(hash)
  {
    var calls := lookup + loop + wait;
    assert calls[|lookup|..|calls| - 1] == loop;
    assert calls[|calls| - 2] == loop[|loop| - 1];
  }

  /** An alternating log that makes all 30 queries has 59 calls. */
  lemma QueriesOfLoop(hash: string, calls: seq<RpcCall>)
    requires QueriesBetweenSleeps(calls, hash) && ReceiptQueries(calls) == MaxAttempts
    ensures |calls| == 2 * MaxAttempts - 1
  {
    QueriesCountEvenPositions(hash, calls);
  }

  /** In an alternating log the receipt queries are the even positions. */
  lemma {:induction false} QueriesCountEvenPositions(hash: string, calls: seq<RpcCall>)
    requires forall i :: 0 <= i < |calls| ==>
      calls[i] == (if i % 2 == 0 then GetTransactionReceipt(hash) else Sleep(PollInterval))
    ensures ReceiptQueries(calls) == (|calls| + 1) / 2
    decreases |calls|
  {
    if |calls| > 1 {
      var tail2 := calls[2..];
      assert forall i :: 0 <= i < |tail2| ==> tail2[i] == calls[i + 2];
      QueriesCountEvenPositions(hash, tail2);
      assert calls[1..][1..] == tail2;
    }
  }

  /** The network flag only picks the endpoint: for the same provider, testnet connects
      to Base Sepolia and mainnet to Base mainnet, and everything after the connection,
      and the returned hash, are the same. */
  lemma NetworkOnlyPicksEndpoint(txHashOrId: string, timeout: int, provider: Provider)
    ensures var t := WaitForTransactionHash(txHashOrId, true, timeout, provider);
      var m := WaitForTransactionHash(txHashOrId, false, timeout, provider);
      && t.calls[0] == Connect(SepoliaRpcUrl)
      && m.calls[0] == Connect(MainnetRpcUrl)
      && t.calls[0] != m.calls[0]
      && t.calls[1..] == m.calls[1..]
      && t.hash == m.hash
  {
    RpcUrlsDiffer();
    var t := WaitForTransactionHash(txHashOrId, true, timeout, provider);
    var m := WaitForTransactionHash(txHashOrId, false, timeout, provider);
    var rest := AfterConnect(txHashOrId, timeout, provider);
    assert t.calls[1..] == rest.calls;
    assert m.calls[1..] == rest.calls;
  }

  /** `waitForTransactionHash(txHashOrId)` with its defaults: testnet, and a 60000 ms
      timeout handed to `waitForTransaction`. */
  function WaitWithDefaults(txHashOrId: string, provider: Provider): (run: HashRun)
    ensures |run.calls| > 0 && run.calls[0] == Connect(SepoliaRpcUrl)
    ensures ReceiptQueries(run.calls) <= MaxAttempts
  {
    WaitForTransactionHash(txHashOrId, true, 60000, provider)
  }
}
