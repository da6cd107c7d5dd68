/** The dashboard's transaction history: the two transfer lists of the
    indexer (outgoing and incoming) are tagged, concatenated without
    deduplication and sorted by block number, newest first; an empty result
    keeps the history already shown. */
module History {
  import opened Common

  datatype Direction = Sent | Received

  /** One entry of `result.transfers`. `value` is the transferred amount
      (`None` for `null`); `blockNum` is the numeric value of the hex block
      number; `asset` is `None` when the field is `null` or absent. */
  datatype RawTransfer = RawTransfer(
    value: Option<real>,
    from: string,
    to: string,
    hash: string,
    blockNum: int,
    asset: Option<string>)

  /** `{type, amount, counterparty, hash, blockNumber, asset}`. */
  datatype TxRecord = TxRecord(
    direction: Direction,
    amount: Option<real>,
    counterparty: string,
    hash: string,
    blockNumber: int,
    asset: string)

  /** What one indexer request produced: the request or its JSON decoding
      threw, or a body whose `result.transfers` is present or not. */
  datatype Reply = Failed | Delivered(transfers: Option<seq<RawTransfer>>)

  /** `tx.asset || 'ETH'`: a missing or empty asset name reads as ETH. */
  function AssetOrEth(asset: Option<string>): (r: string)
    ensures r != ""
    ensures asset.Some? && asset.value != "" ==> r == asset.value
    ensures r != "ETH" ==> asset == Some(r)
  {
    if asset.Some? && asset.value != "" then asset.value else "ETH"
  }

  /** The `map` over the outgoing transfers. */
  function MapSent(transfers: seq<RawTransfer>): (r: seq<TxRecord>)
    ensures |r| == |transfers|
    ensures forall i :: 0 <= i < |r| ==>
      && r[i].direction == Sent
      && r[i].counterparty == transfers[i].to
      && r[i].amount == transfers[i].value
      && r[i].hash == transfers[i].hash
      && r[i].blockNumber == transfers[i].blockNum
      && r[i].asset == AssetOrEth(transfers[i].asset)
  {
    seq(|transfers|, i requires 0 <= i < |transfers| =>
      var tx := transfers[i];
      TxRecord(Sent, tx.value, tx.to, tx.hash, tx.blockNum, AssetOrEth(tx.asset)))
  }

  /** The `map` over the incoming transfers. */
  function MapReceived(transfers: seq<RawTransfer>): (r: seq<TxRecord>)
    ensures |r| == |transfers|
    ensures forall i :: 0 <= i < |r| ==>
      && r[i].direction == Received
      && r[i].counterparty == transfers[i].from
      && r[i].amount == transfers[i].value
      && r[i].hash == transfers[i].hash
      && r[i].blockNumber == transfers[i].blockNum
      && r[i].asset == AssetOrEth(transfers[i].asset)
  {
    seq(|transfers|, i requires 0 <= i < |transfers| =>
      var tx := transfers[i];
      TxRecord(Received, tx.value, tx.from, tx.hash, tx.blockNum, AssetOrEth(tx.asset)))
  }

  /** The transfers a delivered reply contributes: none when it has no
      `result.transfers`. */
  function TransfersOf(reply: Reply): seq<RawTransfer>
    requires reply.Delivered?
  {
    if reply.transfers.Some? then reply.transfers.value else []
  }

  /** Non-increasing block numbers. */
  predicate SortedByBlockDesc(s: seq<TxRecord>)
  {
    forall i, j :: 0 <= i < j < |s| ==> s[i].blockNumber >= s[j].blockNumber
  }

  /** The records of one block, in their order. */
  function AtBlock(s: seq<TxRecord>, b: int): (r: seq<TxRecord>)
    ensures |r| <= |s|
  {
    if s == [] then []
    else (if s[0].blockNumber == b then [s[0]] else []) + AtBlock(s[1..], b)
  }

  /** Places `x` before the first record whose block is not newer than its
      own, so that `x` stays ahead of the records of its block that follow
      it in the input. */
  function InsertByBlock(x: TxRecord, s: seq<TxRecord>): (r: seq<TxRecord>)
    ensures |r| == |s| + 1
    ensures multiset(r) == multiset(s) + multiset{x}
  {
    if s == [] || s[0].blockNumber <= x.blockNumber then
      [x] + s
    else
      assert multiset(s) == multiset{s[0]} + multiset(s[1..]) by {
        assert s == [s[0]] + s[1..];
      }
      [s[0]] + InsertByBlock(x, s[1..])
  }

  /** Inserting into a list sorted newest first keeps it sorted. */
  lemma {:induction false} InsertKeepsSorted(x: TxRecord, s: seq<TxRecord>)
    requires SortedByBlockDesc(s)
    ensures SortedByBlockDesc(InsertByBlock(x, s))
  {
    if s == [] || s[0].blockNumber <= x.blockNumber {
    } else {
      var rest := InsertByBlock(x, s[1..]);
      SortedTail(s);
      InsertKeepsSorted(x, s[1..]);
      var r := [s[0]] + rest;
      forall i, j | 0 <= i < j < |r| ensures r[i].blockNumber >= r[j].blockNumber {
        if i == 0 {
          // every record of `rest` is `x` or a record of `s[1..]`
          assert r[j] in multiset(rest);
          assert r[j] == x || r[j] in multiset(s[1..]);
          if r[j] != x {
            var k :| 0 <= k < |s[1..]| && s[1..][k] == r[j];
            assert s[k + 1] == r[j];
          }
        } else {
          assert r[i] == rest[i - 1] && r[j] == rest[j - 1];
        }
      }
    }
  }

  /** `newTransactions.sort((a, b) => b.blockNumber - a.blockNumber)`, which
      is stable: records ordered newest block first, records of the same
      block in their input order. */
  function SortByBlockDesc(s: seq<TxRecord>): (r: seq<TxRecord>)
    ensures |r| == |s|
    ensures multiset(r) == multiset(s)
  {
    if s == [] then []
    else
      assert multiset(s) == multiset{s[0]} + multiset(s[1..]) by {
        assert s == [s[0]] + s[1..];
      }
      InsertByBlock(s[0], SortByBlockDesc(s[1..]))
  }

  /** The sorted list is ordered newest block first. */
  lemma {:induction false} SortIsSorted(s: seq<TxRecord>)
    ensures SortedByBlockDesc(SortByBlockDesc(s))
  {
    if s != [] {
      SortIsSorted(s[1..]);
      InsertKeepsSorted(s[0], SortByBlockDesc(s[1..]));
    }
  }

  lemma AtBlockCons(y: TxRecord, t: seq<TxRecord>, b: int)
    ensures AtBlock([y] + t, b) == (if y.blockNumber == b then [y] else []) + AtBlock(t, b)
  {
    assert ([y] + t)[0] == y && ([y] + t)[1..] == t;
  }

  /** Inserting `x` passes over newer records only, so among the records of
      any block it lands first exactly when it belongs to that block. */
  lemma {:induction false} InsertAtBlock(x: TxRecord, s: seq<TxRecord>, b: int)
    ensures AtBlock(InsertByBlock(x, s), b)
         == (if x.blockNumber == b then [x] else []) + AtBlock(s, b)
  {
    if s == [] || s[0].blockNumber <= x.blockNumber {
      AtBlockCons(x, s, b);
    } else {
      var rest := InsertByBlock(x, s[1..]);
      assert InsertByBlock(x, s) == [s[0]] + rest;
      AtBlockCons(s[0], rest, b);
      InsertAtBlock(x, s[1..], b);
      AtBlockCons(s[0], s[1..], b);
      assert s == [s[0]] + s[1..];
      var hx := if x.blockNumber == b then [x] else [];
      var h0 := if s[0].blockNumber == b then [s[0]] else [];
      // `s[0]` is newer than `x`, so at most one of the two heads is present
      assert hx == [] || h0 == [];
      assert h0 + (hx + AtBlock(s[1..], b)) == hx + (h0 + AtBlock(s[1..], b));
    }
  }

  /** The sort is stable: for every block number, its records come out in
      the order they went in. */
  lemma {:induction false} SortIsStable(s: seq<TxRecord>, b: int)
    ensures AtBlock(SortByBlockDesc(s), b) == AtBlock(s, b)
  {
    if s != [] {
      SortIsStable(s[1..], b);
      InsertAtBlock(s[0], SortByBlockDesc(s[1..]), b);
    }
  }

  lemma {:induction false} AtBlockMembers(s: seq<TxRecord>, b: int, t: TxRecord)
    ensures t in AtBlock(s, b) <==> t in s && t.blockNumber == b
  {
    if s != [] {
      AtBlockMembers(s[1..], b, t);
      assert s == [s[0]] + s[1..];
    }
  }

  lemma SortedTail(s: seq<TxRecord>)
    requires SortedByBlockDesc(s) && s != []
    ensures SortedByBlockDesc(s[1..])
  {
    forall i, j | 0 <= i < j < |s[1..]| ensures s[1..][i].blockNumber >= s[1..][j].blockNumber {
      assert s[1..][i] == s[i + 1] && s[1..][j] == s[j + 1];
    }
  }

  /** In a list sorted newest first, the head belongs to the newest block,
      so two such lists that agree block by block start alike. */
  lemma SortedSameHead(t: seq<TxRecord>, u: seq<TxRecord>)
    requires SortedByBlockDesc(t) && SortedByBlockDesc(u) && t != [] && u != []
    requires forall b :: AtBlock(t, b) == AtBlock(u, b)
    ensures t[0] == u[0]
  {
    var m := t[0].blockNumber;
    var n := u[0].blockNumber;
    AtBlockMembers(t, m, t[0]);
    AtBlockMembers(u, m, t[0]);
    AtBlockMembers(u, n, u[0]);
    AtBlockMembers(t, n, u[0]);
    assert AtBlock(t, m) == AtBlock(u, m);
    assert AtBlock(t, n) == AtBlock(u, n);
    assert m == n;
    assert AtBlock(t, m)[0] == t[0];
  }

  /** Two lists sorted newest first that agree block by block are equal:
      the per-block order decides the whole order. */
  lemma {:induction false} SortedByBlockUnique(t: seq<TxRecord>, u: seq<TxRecord>)
    requires SortedByBlockDesc(t) && SortedByBlockDesc(u)
    requires forall b :: AtBlock(t, b) == AtBlock(u, b)
    ensures t == u
  {
    if t == [] || u == [] {
      // a record of the non-empty list would have to appear in the other
      if t != [] {
        AtBlockMembers(t, t[0].blockNumber, t[0]);
      } else if u != [] {
        AtBlockMembers(u, u[0].blockNumber, u[0]);
      }
    } else {
      SortedSameHead(t, u);
      forall b ensures AtBlock(t[1..], b) == AtBlock(u[1..], b) {
        var head := if t[0].blockNumber == b then [t[0]] else [];
        assert AtBlock(t, b) == head + AtBlock(t[1..], b);
        assert AtBlock(u, b) == head + AtBlock(u[1..], b);
        assert AtBlock(t[1..], b) == AtBlock(t, b)[|head|..];
      }
      SortedTail(t);
      SortedTail(u);
      SortedByBlockUnique(t[1..], u[1..]);
      assert t == [t[0]] + t[1..] && u == [u[0]] + u[1..];
    }
  }

  /** The sort is characterised by its two promises: any list sorted newest
      first that keeps each block's records in input order is the sorted
      list. */
  lemma SortByBlockDescIsTheStableSort(s: seq<TxRecord>, r: seq<TxRecord>)
    requires SortedByBlockDesc(r)
    requires forall b :: AtBlock(r, b) == AtBlock(s, b)
    ensures r == SortByBlockDesc(s)
  {
    forall b ensures AtBlock(r, b) == AtBlock(SortByBlockDesc(s), b) {
      SortIsStable(s, b);
    }
    SortIsSorted(s);
    SortedByBlockUnique(r, SortByBlockDesc(s));
  }

  /** What `fetchTransactionHistory` collects from two delivered replies:
      the outgoing records, then the incoming ones. */
  function Collected(sent: Reply, received: Reply): (r: seq<TxRecord>)
    requires sent.Delivered? && received.Delivered?
    ensures |r| == |TransfersOf(sent)| + |TransfersOf(received)|
    ensures forall i :: 0 <= i < |TransfersOf(sent)| ==>
      r[i].direction == Sent && r[i].hash == TransfersOf(sent)[i].hash
    ensures forall i :: |TransfersOf(sent)| <= i < |r| ==>
      r[i].direction == Received && r[i].hash == TransfersOf(received)[i - |TransfersOf(sent)|].hash
  {
    MapSent(TransfersOf(sent)) + MapReceived(TransfersOf(received))
  }

  /** The collected history holds every transfer of both sides with no
      deduplication (a transfer to oneself appears twice), and sorting it
      loses and adds nothing. */
  lemma CollectedHoldsBothSides(sent: Reply, received: Reply)
    requires sent.Delivered? && received.Delivered?
    ensures |SortByBlockDesc(Collected(sent, received))|
         == |TransfersOf(sent)| + |TransfersOf(received)|
    ensures multiset(SortByBlockDesc(Collected(sent, received)))
         == multiset(MapSent(TransfersOf(sent))) + multiset(MapReceived(TransfersOf(received)))
  {
  }

  /** In the sorted history a record is tagged sent exactly when it comes
      from the outgoing side, and received exactly when it comes from the
      incoming side. */
  lemma CollectedTagsBySide(sent: Reply, received: Reply, t: TxRecord)
    requires sent.Delivered? && received.Delivered?
    requires t in SortByBlockDesc(Collected(sent, received))
    ensures t.direction == Sent <==> t in MapSent(TransfersOf(sent))
    ensures t.direction == Received <==> t in MapReceived(TransfersOf(received))
  {
    var a := MapSent(TransfersOf(sent));
    var c := MapReceived(TransfersOf(received));
    assert t in multiset(SortByBlockDesc(a + c));
    assert t in multiset(a + c);
    if t in c {
      var k :| 0 <= k < |c| && c[k] == t;
    } else {
      var k :| 0 <= k < |a| && a[k] == t;
    }
  }

  /** The history panel's state: the records shown and the refresh flag. */
  class Dashboard {
    var transactions: seq<TxRecord>
    var isLoadingHistory: bool

    constructor ()
      ensures transactions == [] && !isLoadingHistory
    {
      transactions := [];
      isLoadingHistory := false;
    }

    /** The start of `fetchTransactionHistory`: the flag is raised and the
        refresh button disabled until both replies are in. */
    method BeginHistoryFetch()
      modifies this`isLoadingHistory
      ensures isLoadingHistory
    {
      isLoadingHistory := true;
    }

    /** The rest of `fetchTransactionHistory`, once both requests are
        answered. A failed request or decoding aborts the update; otherwise
        each side with transfers is mapped and appended, and a non-empty
        result, sorted, replaces the history. The flag is lowered on every
        path. */
    method FinishHistoryFetch(sent: Reply, received: Reply)
      modifies this
      ensures !isLoadingHistory
      ensures sent.Failed? || received.Failed? ==> transactions == old(transactions)
      ensures sent.Delivered? && received.Delivered? ==>
        if Collected(sent, received) == [] then transactions == old(transactions)
        else transactions == SortByBlockDesc(Collected(sent, received))
    {
      if sent.Failed? || received.Failed? {
        isLoadingHistory := false;
        return;
      }
      var newTransactions: seq<TxRecord> := [];
      if sent.transfers.Some? {
        newTransactions := newTransactions + MapSent(sent.transfers.value);
      }
      if received.transfers.Some? {
        newTransactions := newTransactions + MapReceived(received.transfers.value);
      }
      assert newTransactions == Collected(sent, received);
      if |newTransactions| > 0 {
        transactions := SortByBlockDesc(newTransactions);
      }
      isLoadingHistory := false;
    }
  }
}
