/** The stake engine: for every stake row of a token with a positive stake per
    token it emits one inline `transfer` of collateral, walking the rows in
    primary-key order. Staking moves collateral from the issuer to the row's
    escrow; unstaking moves the same quantity from the escrow to an owner. */
module StakeEngine {
  import opened Eosio
  import opened Tables

  /** An inline `transfer` action sent to a collateral token contract, signed
      by `actor@permission`. */
  datatype TransferIntent = TransferIntent(
    actor: Name,
    permission: Name,
    contract: Name,
    from: Name,
    to: Name,
    quantity: Asset,
    memo: string)

  /** The collateral amount owed for `amount` token units of the given
      precision under a stake of `stakePerToken` per whole token. The contract
      computes it in floating point; here it is left abstract. */
  type CollateralFn = (Asset, int, Precision) -> int

  /** The collateral moved for `amount` units of the token under row `sk`:
      the collateral symbol of the row with the scaled amount. */
  function StakeQuantity(st: CurrencyStats, sk: StakeStats, amount: int, scale: CollateralFn): (q: Asset)
    ensures q.sym == sk.stakePerToken.sym
  {
    sk.stakePerToken.(amount := scale(sk.stakePerToken, amount, st.supply.sym.precision))
  }

  /** The stake transfer of one row: issuer to escrow, under the issuer's active authority. */
  function StakeTransfer(st: CurrencyStats, sk: StakeStats, amount: int, scale: CollateralFn): TransferIntent
  {
    TransferIntent(st.issuer, "active", sk.stakeTokenContract, st.issuer, sk.stakeTo,
                   StakeQuantity(st, sk, amount, scale), "rainbow stake")
  }

  /** The unstake transfer of one row: escrow to `owner`, under the escrow's active authority. */
  function UnstakeTransfer(st: CurrencyStats, sk: StakeStats, owner: Name, amount: int, scale: CollateralFn): TransferIntent
  {
    TransferIntent(sk.stakeTo, "active", sk.stakeTokenContract, sk.stakeTo, owner,
                   StakeQuantity(st, sk, amount, scale), "rainbow unstake")
  }

  /** `stake_one`: a stake transfer when the row stakes a positive amount per token. */
  function StakeOne(st: CurrencyStats, sk: StakeStats, amount: int, scale: CollateralFn): (r: seq<TransferIntent>)
    ensures |r| <= 1
    ensures r != [] <==> sk.stakePerToken.amount > 0
    ensures forall t :: t in r ==>
      && t.actor == t.from == st.issuer && t.to == sk.stakeTo && t.contract == sk.stakeTokenContract
      && t.quantity.sym == sk.stakePerToken.sym && t.memo == "rainbow stake"
  {
    if sk.stakePerToken.amount > 0 then [StakeTransfer(st, sk, amount, scale)] else []
  }

  /** `unstake_one`: an unstake transfer when the row stakes a positive amount per token. */
  function UnstakeOne(st: CurrencyStats, sk: StakeStats, owner: Name, amount: int, scale: CollateralFn): (r: seq<TransferIntent>)
    ensures |r| <= 1
    ensures r != [] <==> sk.stakePerToken.amount > 0
    ensures forall t :: t in r ==>
      && t.actor == t.from == sk.stakeTo && t.to == owner && t.contract == sk.stakeTokenContract
      && t.quantity.sym == sk.stakePerToken.sym && t.memo == "rainbow unstake"
  {
    if sk.stakePerToken.amount > 0 then [UnstakeTransfer(st, sk, owner, amount, scale)] else []
  }

  /** An unstake transfer is the stake transfer of the same row and amount run
      backwards to `owner`: same contract, same quantity, signed by the escrow. */
  lemma UnstakeMirrorsStake(st: CurrencyStats, sk: StakeStats, owner: Name, amount: int, scale: CollateralFn)
    ensures |UnstakeOne(st, sk, owner, amount, scale)| == |StakeOne(st, sk, amount, scale)|
    ensures UnstakeOne(st, sk, owner, amount, scale) != [] ==>
      var s, u := StakeOne(st, sk, amount, scale)[0], UnstakeOne(st, sk, owner, amount, scale)[0];
      && s.actor == s.from == st.issuer && s.to == sk.stakeTo
      && u.actor == u.from == sk.stakeTo && u.to == owner
      && u.contract == s.contract == sk.stakeTokenContract
      && u.quantity == s.quantity
      && s.permission == u.permission == "active"
  {
  }

  /** The rows that stake a positive amount, in table order. */
  function Staked(rows: seq<StakeStats>): seq<StakeStats>
  {
    if rows == [] then []
    else (if rows[0].stakePerToken.amount > 0 then [rows[0]] else []) + Staked(rows[1..])
  }

  /** The intents `stake_all` emits, row by row. */
  function StakeIntents(st: CurrencyStats, rows: seq<StakeStats>, amount: int, scale: CollateralFn): seq<TransferIntent>
  {
    if rows == [] then []
    else StakeOne(st, rows[0], amount, scale) + StakeIntents(st, rows[1..], amount, scale)
  }

  /** The intents `unstake_all` emits, row by row. */
  function UnstakeIntents(st: CurrencyStats, rows: seq<StakeStats>, owner: Name, amount: int, scale: CollateralFn): seq<TransferIntent>
  {
    if rows == [] then []
    else UnstakeOne(st, rows[0], owner, amount, scale) + UnstakeIntents(st, rows[1..], owner, amount, scale)
  }

  /** A row is staked exactly when it is in the table with a positive stake per token. */
  lemma {:induction false} StakedExactlyPositive(rows: seq<StakeStats>, r: StakeStats)
    ensures r in Staked(rows) <==> r in rows && r.stakePerToken.amount > 0
  {
    if rows != [] {
      StakedExactlyPositive(rows[1..], r);
      assert rows == [rows[0]] + rows[1..];
    }
  }

  /** The staked rows keep the table's primary-key order. */
  lemma {:induction false} StakedInTableOrder(rows: seq<StakeStats>)
    requires IndicesIncreasing(rows)
    ensures IndicesIncreasing(Staked(rows))
  {
    if rows != [] {
      var rest := Staked(rows[1..]);
      StakedInTableOrder(rows[1..]);
      if rows[0].stakePerToken.amount > 0 {
        forall j | 0 <= j < |rest| ensures rows[0].index < rest[j].index {
          StakedExactlyPositive(rows[1..], rest[j]);
          var m :| 0 <= m < |rows[1..]| && rows[1..][m] == rest[j];
          assert rows[m + 1] == rest[j];
        }
      }
    }
  }

  /** One intent per staked row, in table order: the k-th stake intent is the
      stake transfer of the k-th staked row. */
  lemma {:induction false} StakeIntentsPerRow(st: CurrencyStats, rows: seq<StakeStats>, amount: int, scale: CollateralFn)
    ensures |StakeIntents(st, rows, amount, scale)| == |Staked(rows)|
    ensures forall k :: 0 <= k < |Staked(rows)| ==>
      StakeIntents(st, rows, amount, scale)[k] == StakeTransfer(st, Staked(rows)[k], amount, scale)
  {
    if rows != [] {
      StakeIntentsPerRow(st, rows[1..], amount, scale);
    }
  }

  /** One intent per staked row, in table order, for unstaking. */
  lemma {:induction false} UnstakeIntentsPerRow(st: CurrencyStats, rows: seq<StakeStats>, owner: Name, amount: int, scale: CollateralFn)
    ensures |UnstakeIntents(st, rows, owner, amount, scale)| == |Staked(rows)|
    ensures forall k :: 0 <= k < |Staked(rows)| ==>
      UnstakeIntents(st, rows, owner, amount, scale)[k] == UnstakeTransfer(st, Staked(rows)[k], owner, amount, scale)
  {
    if rows != [] {
      UnstakeIntentsPerRow(st, rows[1..], owner, amount, scale);
    }
  }

  lemma {:induction false} StakeIntentsSnoc(st: CurrencyStats, rows: seq<StakeStats>, r: StakeStats, amount: int, scale: CollateralFn)
    ensures StakeIntents(st, rows + [r], amount, scale) == StakeIntents(st, rows, amount, scale) + StakeOne(st, r, amount, scale)
  {
    if rows == [] {
      assert [r][1..] == [];
    } else {
      assert (rows + [r])[1..] == rows[1..] + [r];
      StakeIntentsSnoc(st, rows[1..], r, amount, scale);
    }
  }

  lemma {:induction false} UnstakeIntentsSnoc(st: CurrencyStats, rows: seq<StakeStats>, r: StakeStats, owner: Name, amount: int, scale: CollateralFn)
    ensures UnstakeIntents(st, rows + [r], owner, amount, scale)
         == UnstakeIntents(st, rows, owner, amount, scale) + UnstakeOne(st, r, owner, amount, scale)
  {
    if rows == [] {
      assert [r][1..] == [];
    } else {
      assert (rows + [r])[1..] == rows[1..] + [r];
      UnstakeIntentsSnoc(st, rows[1..], r, owner, amount, scale);
    }
  }

  /** `stake_all`: walk the stake rows in table order and emit the stake
      transfer of every row with a positive stake per token. */
  method StakeAll(st: CurrencyStats, rows: seq<StakeStats>, amount: int, scale: CollateralFn)
    returns (intents: seq<TransferIntent>)
    ensures intents == StakeIntents(st, rows, amount, scale)
    ensures |intents| == |Staked(rows)|
    ensures forall k :: 0 <= k < |intents| ==> intents[k] == StakeTransfer(st, Staked(rows)[k], amount, scale)
  {
    intents := [];
    for i := 0 to |rows|
      invariant intents == StakeIntents(st, rows[..i], amount, scale)
    {
      assert rows[..i + 1] == rows[..i] + [rows[i]];
      StakeIntentsSnoc(st, rows[..i], rows[i], amount, scale);
      intents := intents + StakeOne(st, rows[i], amount, scale);
    }
    assert rows[..|rows|] == rows;
    StakeIntentsPerRow(st, rows, amount, scale);
  }

  /** `unstake_all`: walk the stake rows in table order and emit the unstake
      transfer of every row with a positive stake per token. */
  method UnstakeAll(st: CurrencyStats, rows: seq<StakeStats>, owner: Name, amount: int, scale: CollateralFn)
    returns (intents: seq<TransferIntent>)
    ensures intents == UnstakeIntents(st, rows, owner, amount, scale)
    ensures |intents| == |Staked(rows)|
    ensures forall k :: 0 <= k < |intents| ==> intents[k] == UnstakeTransfer(st, Staked(rows)[k], owner, amount, scale)
  {
    intents := [];
    for i := 0 to |rows|
      invariant intents == UnstakeIntents(st, rows[..i], owner, amount, scale)
    {
      assert rows[..i + 1] == rows[..i] + [rows[i]];
      UnstakeIntentsSnoc(st, rows[..i], rows[i], owner, amount, scale);
      intents := intents + UnstakeOne(st, rows[i], owner, amount, scale);
    }
    assert rows[..|rows|] == rows;
    UnstakeIntentsPerRow(st, rows, owner, amount, scale);
  }

  /** The change in `who`'s holding of collateral `sym` on `contract` made by one transfer. */
  function Flow(t: TransferIntent, who: Name, contract: Name, sym: Symbol): int
  {
    if t.contract == contract && t.quantity.sym == sym then
      (if t.to == who then t.quantity.amount else 0) - (if t.from == who then t.quantity.amount else 0)
    else 0
  }

  /** The net change in `who`'s holding made by a sequence of transfers. */
  function NetFlow(ts: seq<TransferIntent>, who: Name, contract: Name, sym: Symbol): int
  {
    if ts == [] then 0 else Flow(ts[0], who, contract, sym) + NetFlow(ts[1..], who, contract, sym)
  }

  lemma {:induction false} NetFlowAppend(a: seq<TransferIntent>, b: seq<TransferIntent>, who: Name, contract: Name, sym: Symbol)
    ensures NetFlow(a + b, who, contract, sym) == NetFlow(a, who, contract, sym) + NetFlow(b, who, contract, sym)
  {
    if a == [] {
      assert a + b == b;
    } else {
      assert (a + b)[1..] == a[1..] + b;
      NetFlowAppend(a[1..], b, who, contract, sym);
    }
  }

  /** A single transfer moves exactly its own flow. */
  lemma NetFlowOfOne(t: TransferIntent, who: Name, contract: Name, sym: Symbol)
    ensures NetFlow([t], who, contract, sym) == Flow(t, who, contract, sym)
  {
    assert [t][1..] == [];
  }

  /** Unstaking one row back to the issuer moves exactly the opposite of staking it. */
  lemma UnstakeOneUndoesStakeOne(st: CurrencyStats, sk: StakeStats, amount: int, scale: CollateralFn,
                                 who: Name, contract: Name, sym: Symbol)
    ensures NetFlow(UnstakeOne(st, sk, st.issuer, amount, scale), who, contract, sym)
         == -NetFlow(StakeOne(st, sk, amount, scale), who, contract, sym)
  {
    if sk.stakePerToken.amount > 0 {
      NetFlowOfOne(StakeTransfer(st, sk, amount, scale), who, contract, sym);
      NetFlowOfOne(UnstakeTransfer(st, sk, st.issuer, amount, scale), who, contract, sym);
    }
  }

  /** Unstaking `amount` back to the issuer moves, for every account and
      collateral, exactly the opposite of what staking `amount` moved. */
  lemma {:induction false} UnstakeUndoesStake(st: CurrencyStats, rows: seq<StakeStats>, amount: int, scale: CollateralFn,
                                              who: Name, contract: Name, sym: Symbol)
    ensures NetFlow(UnstakeIntents(st, rows, st.issuer, amount, scale), who, contract, sym)
         == -NetFlow(StakeIntents(st, rows, amount, scale), who, contract, sym)
  {
    if rows != [] {
      var r := rows[0];
      UnstakeUndoesStake(st, rows[1..], amount, scale, who, contract, sym);
      NetFlowAppend(StakeOne(st, r, amount, scale), StakeIntents(st, rows[1..], amount, scale), who, contract, sym);
      NetFlowAppend(UnstakeOne(st, r, st.issuer, amount, scale), UnstakeIntents(st, rows[1..], st.issuer, amount, scale), who, contract, sym);
    }
  }

  /** The intents of `stake_all` and `unstake_all` read only the issuer and
      the precision of the stats row they are given, so a row whose supply
      amount has since changed yields the same intents. */
  lemma {:induction false} IntentsReadIssuerAndPrecision(st1: CurrencyStats, st2: CurrencyStats, rows: seq<StakeStats>,
                                                       owner: Name, amount: int, scale: CollateralFn)
    requires st1.issuer == st2.issuer && st1.supply.sym.precision == st2.supply.sym.precision
    ensures StakeIntents(st1, rows, amount, scale) == StakeIntents(st2, rows, amount, scale)
    ensures UnstakeIntents(st1, rows, owner, amount, scale) == UnstakeIntents(st2, rows, owner, amount, scale)
  {
    if rows != [] {
      IntentsReadIssuerAndPrecision(st1, st2, rows[1..], owner, amount, scale);
    }
  }

  /** Issuing a quantity and the issuer retiring the same quantity over the same
      stake rows leaves every account's collateral where it was. `issue` and
      `retire` see the stats row with different supplies; what they share is
      the issuer and the precision. */
  lemma IssueThenRetireNetsZero(issued: CurrencyStats, retired: CurrencyStats, rows: seq<StakeStats>, amount: int,
                                scale: CollateralFn, who: Name, contract: Name, sym: Symbol)
    requires issued.issuer == retired.issuer && issued.supply.sym.precision == retired.supply.sym.precision
    ensures NetFlow(StakeIntents(issued, rows, amount, scale)
                    + UnstakeIntents(retired, rows, retired.issuer, amount, scale), who, contract, sym) == 0
  {
    IntentsReadIssuerAndPrecision(issued, retired, rows, retired.issuer, amount, scale);
    NetFlowAppend(StakeIntents(retired, rows, amount, scale), UnstakeIntents(retired, rows, retired.issuer, amount, scale),
                  who, contract, sym);
    UnstakeUndoesStake(retired, rows, amount, scale, who, contract, sym);
  }
}
