/** The `rainbowtoken` contract: a token ledger whose actions either commit as a
    whole or abort with a message. Every action is a method of `Token`, the
    contract's tables are its fields, and the inline collateral transfers an
    action sends are returned as an ordered list of intents. */
module Rainbow {
  import opened Eosio
  import opened Tables
  import opened Ledger
  import opened StakeEngine

  /** The result of an action: committed with the inline transfers it sends, or aborted. */
  datatype Outcome = Done(intents: seq<TransferIntent>) | Aborted(reason: string)

  /** Memos are limited to 256 bytes. */
  const MaxMemo: nat := 256

  /** Withdraw mode of `transfer`: the withdrawal manager signed and the
      recipient is the token's `withdraw_to` account. */
  predicate Withdrawing(host: Host, st: CurrencyStats, to: Name)
  {
    host.HasAuth(st.withdrawalMgr) && to == st.withdrawTo
  }

  // ---------------------------------------------------------------------
  // setstake on an existing row

  /** The new configuration differs from the row's stake or escrow. */
  predicate Restaking(sk: StakeStats, stakePerToken: Asset, stakeTo: Name)
  {
    stakePerToken != sk.stakePerToken || stakeTo != sk.stakeTo
  }

  /** The escrow stays and the stake per token drops to zero. */
  predicate Destaking(sk: StakeStats, stakePerToken: Asset, stakeTo: Name)
  {
    stakeTo == sk.stakeTo && stakePerToken.amount == 0
  }

  /** A change refused while tokens are outstanding: a restake of a row that still stakes. */
  predicate MustDestakeFirst(st: CurrencyStats, sk: StakeStats, stakePerToken: Asset, stakeTo: Name)
  {
    && st.supply.amount != 0
    && !Destaking(sk, stakePerToken, stakeTo)
    && Restaking(sk, stakePerToken, stakeTo)
    && sk.stakePerToken.amount != 0
  }

  /** The row is erased: a restake to the delete sentinel while tokens are outstanding. */
  predicate Erases(st: CurrencyStats, sk: StakeStats, stakePerToken: Asset, stakeTo: Name, deleteStakeAcct: Name)
  {
    && st.supply.amount != 0
    && !Destaking(sk, stakePerToken, stakeTo)
    && Restaking(sk, stakePerToken, stakeTo)
    && stakeTo == deleteStakeAcct
  }

  /** The row after the `modify`. The library's `modify` runs its updater on
      the object it is given, so the copy `sk` holds these values afterwards. */
  function Updated(sk: StakeStats, stakePerToken: Asset, stakeTokenContract: Name, stakeTo: Name): StakeStats
  {
    sk.(stakePerToken := stakePerToken, stakeTokenContract := stakeTokenContract, stakeTo := stakeTo)
  }

  /** The intents of `setstake` on an existing row `sk`: with tokens
      outstanding, a destake first unstakes the whole supply under the old row;
      a restake then stakes the whole supply under `sk` as the `modify` left
      it, which is the updated row unless the row was erased (then `sk` keeps
      its zero stake and nothing is staked). A call that changes nothing, or
      that erases the row, sends nothing. */
  function SetStakeIntents(st: CurrencyStats, sk: StakeStats, stakePerToken: Asset, stakeTokenContract: Name,
                           stakeTo: Name, deleteStakeAcct: Name, scale: CollateralFn): (r: seq<TransferIntent>)
    ensures |r| <= 2
    ensures !Restaking(sk, stakePerToken, stakeTo) ==> r == []
    ensures Erases(st, sk, stakePerToken, stakeTo, deleteStakeAcct) ==> r == []
    ensures st.supply.amount == 0 ==> forall t :: t in r ==> t.memo == "rainbow stake"
  {
    (if st.supply.amount != 0 && Destaking(sk, stakePerToken, stakeTo)
     then UnstakeOne(st, sk, st.issuer, st.supply.amount, scale) else [])
    + (if Restaking(sk, stakePerToken, stakeTo) && !Erases(st, sk, stakePerToken, stakeTo, deleteStakeAcct)
       then StakeOne(st, Updated(sk, stakePerToken, stakeTokenContract, stakeTo), st.supply.amount, scale) else [])
  }

  /** What the escrow of a row should hold for `amount` outstanding tokens:
      the stake transfer that issuing them under the row would have made. */
  function Held(st: CurrencyStats, row: Option<StakeStats>, amount: int, scale: CollateralFn): seq<TransferIntent>
  {
    if row.Some? then StakeOne(st, row.value, amount, scale) else []
  }

  /** With tokens outstanding, a successful `setstake` on an existing row moves
      exactly the difference between what the new row should hold and what the
      old row held, for every account and collateral. */
  lemma SetStakeSettlesEscrow(st: CurrencyStats, sk: StakeStats, stakePerToken: Asset, stakeTo: Name,
                              deleteStakeAcct: Name, scale: CollateralFn, who: Name, contract: Name, sym: Symbol)
    requires st.supply.amount != 0
    requires !MustDestakeFirst(st, sk, stakePerToken, stakeTo)
    ensures var after := if Erases(st, sk, stakePerToken, stakeTo, deleteStakeAcct) then None
                         else Some(Updated(sk, stakePerToken, sk.stakeTokenContract, stakeTo));
      NetFlow(SetStakeIntents(st, sk, stakePerToken, sk.stakeTokenContract, stakeTo, deleteStakeAcct, scale), who, contract, sym)
      == NetFlow(Held(st, after, st.supply.amount, scale), who, contract, sym)
         - NetFlow(Held(st, Some(sk), st.supply.amount, scale), who, contract, sym)
  {
    var s := st.supply.amount;
    var upd := Updated(sk, stakePerToken, sk.stakeTokenContract, stakeTo);
    var release := if Destaking(sk, stakePerToken, stakeTo) then UnstakeOne(st, sk, st.issuer, s, scale) else [];
    var hold := if Restaking(sk, stakePerToken, stakeTo) && !Erases(st, sk, stakePerToken, stakeTo, deleteStakeAcct)
                then StakeOne(st, upd, s, scale) else [];
    NetFlowAppend(release, hold, who, contract, sym);
    UnstakeOneUndoesStakeOne(st, sk, s, scale, who, contract, sym);
    if !Restaking(sk, stakePerToken, stakeTo) {
      assert upd == sk;
    }
  }

  /** With tokens outstanding, destaking a row that stakes returns the
      collateral of the whole supply from the escrow to the issuer, and nothing else. */
  lemma DestakeReturnsCollateral(st: CurrencyStats, sk: StakeStats, stakePerToken: Asset, stakeTokenContract: Name,
                                 deleteStakeAcct: Name, scale: CollateralFn)
    requires st.supply.amount != 0 && sk.stakePerToken.amount > 0
    requires Destaking(sk, stakePerToken, sk.stakeTo)
    ensures SetStakeIntents(st, sk, stakePerToken, stakeTokenContract, sk.stakeTo, deleteStakeAcct, scale)
         == [UnstakeTransfer(st, sk, st.issuer, st.supply.amount, scale)]
  {
  }

  /** With tokens outstanding, restaking a row whose stake was zeroed to a
      positive stake sends the new collateral of the whole supply to the new escrow. */
  lemma RestakeStakesNewCollateral(st: CurrencyStats, sk: StakeStats, stakePerToken: Asset, stakeTo: Name,
                                   deleteStakeAcct: Name, scale: CollateralFn)
    requires st.supply.amount != 0 && sk.stakePerToken.amount == 0 && stakePerToken.amount > 0
    requires stakeTo != deleteStakeAcct
    ensures SetStakeIntents(st, sk, stakePerToken, sk.stakeTokenContract, stakeTo, deleteStakeAcct, scale)
         == [StakeTransfer(st, Updated(sk, stakePerToken, sk.stakeTokenContract, stakeTo), st.supply.amount, scale)]
  {
  }

  // ---------------------------------------------------------------------
  // The checks each action makes before it changes anything, in the
  // contract's order: the first that fails decides the abort message.

  /** `create`'s checks: signed by the issuer, a valid positive maximum, existing
      manager accounts, and for an existing symbol an unlocked configuration of
      the same issuer that keeps precision and covers the outstanding supply. */
  function CreateGate(host: Host, stats: StatsTable, issuer: Name, maximumSupply: Asset, membershipMgr: Name,
                      withdrawalMgr: Name, withdrawTo: Name, freezeMgr: Name): (g: Check)
    ensures var c := maximumSupply.sym.code;
      g.Passed? <==>
        && host.HasAuth(issuer) && ValidSymbol(maximumSupply.sym) && ValidAsset(maximumSupply)
        && maximumSupply.amount > 0
        && (host.IsAccount(membershipMgr) || membershipMgr == AllowAllAcct)
        && host.IsAccount(withdrawalMgr) && host.IsAccount(withdrawTo) && host.IsAccount(freezeMgr)
        && (c in stats ==>
              && !stats[c].configLocked
              && stats[c].issuer == issuer
              && (stats[c].supply.amount != 0 ==>
                    && maximumSupply.sym == stats[c].supply.sym
                    && maximumSupply.amount >= stats[c].supply.amount))
    ensures !host.HasAuth(issuer) ==> g == host.RequireAuth(issuer)
    ensures var c := maximumSupply.sym.code;
      c in stats && stats[c].configLocked ==> g.Failed?
  {
    var auth := host.RequireAuth(issuer);
    var sym := maximumSupply.sym;
    var c := sym.code;
    if auth.Failed? then auth
    else if !ValidSymbol(sym) then Failed("invalid symbol name")
    else if !ValidAsset(maximumSupply) then Failed("invalid supply")
    else if maximumSupply.amount <= 0 then Failed("max-supply must be positive")
    else if !(host.IsAccount(membershipMgr) || membershipMgr == AllowAllAcct) then
      Failed("membership_mgr account does not exist")
    else if !host.IsAccount(withdrawalMgr) then Failed("withdrawal_mgr account does not exist")
    else if !host.IsAccount(withdrawTo) then Failed("withdraw_to account does not exist")
    else if !host.IsAccount(freezeMgr) then Failed("freeze_mgr account does not exist")
    else if c !in stats then Passed
    else if stats[c].configLocked then Failed("token reconfiguration is locked")
    else if stats[c].issuer != issuer then Failed("mismatched issuer account")
    else if stats[c].supply.amount != 0 && sym != stats[c].supply.sym then
      Failed("cannot change symbol precision with outstanding supply")
    else if stats[c].supply.amount != 0 && maximumSupply.amount < stats[c].supply.amount then
      Failed("cannot reduce maximum below outstanding supply")
    else Passed
  }

  /** `setstake`'s checks before it looks at the stakes table: signed by the
      issuer, a short memo, a valid non-negative stake on an existing
      contract, an existing escrow unless it is the delete sentinel, and an
      existing, unlocked token of that issuer. */
  function SetStakeGate(host: Host, stats: StatsTable, issuer: Name, tokenCode: SymbolCode, stakePerToken: Asset,
                        stakeTokenContract: Name, stakeTo: Name, memo: string, deleteStakeAcct: Name): (g: Check)
    ensures g.Passed? <==>
      && host.HasAuth(issuer) && |memo| <= MaxMemo
      && ValidSymbol(stakePerToken.sym) && ValidAsset(stakePerToken) && stakePerToken.amount >= 0
      && host.IsAccount(stakeTokenContract)
      && (stakeTo != deleteStakeAcct ==> host.IsAccount(stakeTo))
      && tokenCode in stats && !stats[tokenCode].configLocked && stats[tokenCode].issuer == issuer
    ensures host.HasAuth(issuer) && |memo| > MaxMemo ==> g == Failed("memo has more than 256 bytes")
  {
    var auth := host.RequireAuth(issuer);
    if auth.Failed? then auth
    else if |memo| > MaxMemo then Failed("memo has more than 256 bytes")
    else if !ValidSymbol(stakePerToken.sym) then Failed("invalid stake symbol name")
    else if !ValidAsset(stakePerToken) then Failed("invalid stake")
    else if stakePerToken.amount < 0 then Failed("stake per token must be non-negative")
    else if !host.IsAccount(stakeTokenContract) then Failed("stake token contract account does not exist")
    else if stakeTo != deleteStakeAcct && !host.IsAccount(stakeTo) then Failed("stake_to account does not exist")
    else if tokenCode !in stats then Failed("token with symbol does not exist")
    else if stats[tokenCode].configLocked then Failed("token reconfiguration is locked")
    else if stats[tokenCode].issuer != issuer then Failed("mismatched issuer account")
    else Passed
  }

  /** `issue`'s checks: an existing token, signed by its issuer, a positive
      quantity of the token's own symbol that fits under the maximum supply. */
  function IssueGate(host: Host, stats: StatsTable, quantity: Asset, memo: string): (g: Check)
    ensures var c := quantity.sym.code;
      g.Passed? <==>
        && ValidSymbol(quantity.sym) && |memo| <= MaxMemo && c in stats
        && host.HasAuth(stats[c].issuer)
        && ValidAsset(quantity) && quantity.amount > 0
        && quantity.sym == stats[c].supply.sym
        && quantity.amount <= stats[c].maxSupply.amount - stats[c].supply.amount
    ensures var c := quantity.sym.code;
      ValidSymbol(quantity.sym) && |memo| <= MaxMemo && c !in stats
      ==> g == Failed("token with symbol does not exist, create token before issue")
  {
    var c := quantity.sym.code;
    if !ValidSymbol(quantity.sym) then Failed("invalid symbol name")
    else if |memo| > MaxMemo then Failed("memo has more than 256 bytes")
    else if c !in stats then Failed("token with symbol does not exist, create token before issue")
    else if host.RequireAuth(stats[c].issuer).Failed? then host.RequireAuth(stats[c].issuer)
    else if !ValidAsset(quantity) then Failed("invalid quantity")
    else if quantity.amount <= 0 then Failed("must issue positive quantity")
    else if quantity.sym != stats[c].supply.sym then Failed("symbol precision mismatch")
    else if quantity.amount > stats[c].maxSupply.amount - stats[c].supply.amount then
      Failed("quantity exceeds available supply")
    else Passed
  }

  /** `retire`'s checks: an existing token; with bearer redeem, transfers not
      frozen, otherwise the owner is the issuer; signed by the owner; a positive
      quantity of the token's own symbol. */
  function RetireGate(host: Host, stats: StatsTable, owner: Name, quantity: Asset, memo: string): (g: Check)
    ensures var c := quantity.sym.code;
      g.Passed? <==>
        && ValidSymbol(quantity.sym) && |memo| <= MaxMemo && c in stats
        && (if stats[c].bearerRedeem then !stats[c].transfersFrozen else owner == stats[c].issuer)
        && host.HasAuth(owner) && ValidAsset(quantity) && quantity.amount > 0
        && quantity.sym == stats[c].supply.sym
    ensures var c := quantity.sym.code;
      ValidSymbol(quantity.sym) && |memo| <= MaxMemo && c in stats && !stats[c].bearerRedeem && owner != stats[c].issuer
      ==> g == Failed("bearer redeem is disabled")
    ensures var c := quantity.sym.code;
      ValidSymbol(quantity.sym) && |memo| <= MaxMemo && c in stats && stats[c].bearerRedeem && stats[c].transfersFrozen
      ==> g == Failed("transfers are frozen")
  {
    var c := quantity.sym.code;
    if !ValidSymbol(quantity.sym) then Failed("invalid symbol name")
    else if |memo| > MaxMemo then Failed("memo has more than 256 bytes")
    else if c !in stats then Failed("token with symbol does not exist")
    else if stats[c].bearerRedeem && stats[c].transfersFrozen then Failed("transfers are frozen")
    else if !stats[c].bearerRedeem && owner != stats[c].issuer then Failed("bearer redeem is disabled")
    else if host.RequireAuth(owner).Failed? then host.RequireAuth(owner)
    else if !ValidAsset(quantity) then Failed("invalid quantity")
    else if quantity.amount <= 0 then Failed("must retire positive quantity")
    else if quantity.sym != stats[c].supply.sym then Failed("symbol precision mismatch")
    else Passed
  }

  /** `transfer`'s checks: distinct existing accounts, an existing token, a
      recipient row when membership is managed, a positive quantity of the
      token's symbol, a short memo, and unless withdrawing, the sender's
      signature and (for a sender other than the issuer) unfrozen transfers. */
  function TransferGate(host: Host, stats: StatsTable, accounts: AccountsTable, from: Name, to: Name,
                        quantity: Asset, memo: string): (g: Check)
    ensures var c := quantity.sym.code;
      g.Passed? <==>
        && from != to && host.IsAccount(from) && host.IsAccount(to) && c in stats
        && (stats[c].membershipMgr != AllowAllAcct ==> (to, c) in accounts)
        && ValidAsset(quantity) && quantity.amount > 0 && quantity.sym == stats[c].supply.sym
        && |memo| <= MaxMemo
        && (Withdrawing(host, stats[c], to) ||
              (host.HasAuth(from) && (from != stats[c].issuer ==> !stats[c].transfersFrozen)))
    ensures from == to ==> g == Failed("cannot transfer to self")
    ensures var c := quantity.sym.code;
      && from != to && host.IsAccount(from) && host.IsAccount(to) && c in stats
      && stats[c].membershipMgr != AllowAllAcct && (to, c) !in accounts
      ==> g == Failed("to account must have membership")
    ensures var c := quantity.sym.code;
      && from != to && host.IsAccount(from) && host.IsAccount(to) && c in stats
      && (stats[c].membershipMgr != AllowAllAcct ==> (to, c) in accounts)
      && ValidAsset(quantity) && quantity.amount > 0 && quantity.sym == stats[c].supply.sym
      && |memo| <= MaxMemo
      && !Withdrawing(host, stats[c], to) && host.HasAuth(from)
      && from != stats[c].issuer && stats[c].transfersFrozen
      ==> g == Failed("transfers are frozen")
  {
    var c := quantity.sym.code;
    if from == to then Failed("cannot transfer to self")
    else if !host.IsAccount(from) then Failed("from account does not exist")
    else if !host.IsAccount(to) then Failed("to account does not exist")
    else if c !in stats then Failed("unable to find key")
    else if stats[c].membershipMgr != AllowAllAcct && (to, c) !in accounts then Failed("to account must have membership")
    else if !ValidAsset(quantity) then Failed("invalid quantity")
    else if quantity.amount <= 0 then Failed("must transfer positive quantity")
    else if quantity.sym != stats[c].supply.sym then Failed("symbol precision mismatch")
    else if |memo| > MaxMemo then Failed("memo has more than 256 bytes")
    else if Withdrawing(host, stats[c], to) then Passed
    else if host.RequireAuth(from).Failed? then host.RequireAuth(from)
    else if from != stats[c].issuer && stats[c].transfersFrozen then Failed("transfers are frozen")
    else Passed
  }

  /** `open`'s checks: signed by the RAM payer, an existing owner, an existing
      token, and the membership manager's signature unless anyone may hold it. */
  function OpenGate(host: Host, stats: StatsTable, owner: Name, symbolCode: SymbolCode, ramPayer: Name): (g: Check)
    ensures g.Passed? <==>
      && host.HasAuth(ramPayer) && host.IsAccount(owner) && symbolCode in stats
      && (stats[symbolCode].membershipMgr != AllowAllAcct ==> host.HasAuth(stats[symbolCode].membershipMgr))
  {
    if host.RequireAuth(ramPayer).Failed? then host.RequireAuth(ramPayer)
    else if !host.IsAccount(owner) then Failed("owner account does not exist")
    else if symbolCode !in stats then Failed("symbol does not exist")
    else if stats[symbolCode].membershipMgr == AllowAllAcct then Passed
    else host.RequireAuth(stats[symbolCode].membershipMgr)
  }

  /** `close`'s checks: an existing token; the owner's signature unless the
      membership manager signed; an existing row holding zero. */
  function CloseGate(host: Host, stats: StatsTable, accounts: AccountsTable, owner: Name, symbolCode: SymbolCode): (g: Check)
    ensures g.Passed? <==>
      && symbolCode in stats
      && (Managed(host, stats[symbolCode]) || host.HasAuth(owner))
      && (owner, symbolCode) in accounts
      && accounts[(owner, symbolCode)].balance.amount == 0
    ensures symbolCode in stats && (Managed(host, stats[symbolCode]) || host.HasAuth(owner))
            && (owner, symbolCode) in accounts && accounts[(owner, symbolCode)].balance.amount != 0
            ==> g == Failed("Cannot close because the balance is not zero.")
  {
    if symbolCode !in stats then Failed("symbol does not exist")
    else if !Managed(host, stats[symbolCode]) && host.RequireAuth(owner).Failed? then host.RequireAuth(owner)
    else if (owner, symbolCode) !in accounts then
      Failed("Balance row already deleted or never existed. Action won't have any effect.")
    else if accounts[(owner, symbolCode)].balance.amount != 0 then Failed("Cannot close because the balance is not zero.")
    else Passed
  }

  /** The membership manager of a managed token signed. */
  predicate Managed(host: Host, st: CurrencyStats)
  {
    st.membershipMgr != AllowAllAcct && host.HasAuth(st.membershipMgr)
  }

  /** `freeze`'s checks: an existing token, a short memo, the freeze manager's signature. */
  function FreezeGate(host: Host, stats: StatsTable, symbolCode: SymbolCode, memo: string): (g: Check)
    ensures g.Passed? <==> symbolCode in stats && |memo| <= MaxMemo && host.HasAuth(stats[symbolCode].freezeMgr)
  {
    if symbolCode !in stats then Failed("symbol does not exist")
    else if |memo| > MaxMemo then Failed("memo has more than 256 bytes")
    else host.RequireAuth(stats[symbolCode].freezeMgr)
  }

  /** What `setstake` does to the rows of a symbol when no row has the
      `staketoken` key: under the count guard, and never for the delete
      sentinel, it appends a row under the next free index, sending nothing. */
  predicate EmplaceOutcome(rows: seq<StakeStats>, stakePerToken: Asset, stakeTokenContract: Name, stakeTo: Name,
                           maxStakeCount: nat, deleteStakeAcct: Name, r: Outcome, rows': seq<StakeStats>)
  {
    && (r.Done? <==> |rows| <= maxStakeCount && stakeTo != deleteStakeAcct)
    && (|rows| > maxStakeCount ==> r == Aborted("stake count exceeded"))
    && (r.Aborted? ==> rows' == rows)
    && (r.Done? ==>
          && IndicesIncreasing(rows)
          && rows' == rows + [StakeStats(NextIndex(rows), stakePerToken, stakeTokenContract, stakeTo)]
          && r.intents == [])
  }

  /** What `setstake` does to the rows of a symbol whose row `rows[i]` has the
      `staketoken` key: refuses a restake of a row that still stakes while
      tokens are outstanding, otherwise erases or updates the row and sends
      the transfers of `SetStakeIntents`. */
  predicate RestakeOutcome(st: CurrencyStats, rows: seq<StakeStats>, i: nat, stakePerToken: Asset,
                           stakeTokenContract: Name, stakeTo: Name, deleteStakeAcct: Name, scale: CollateralFn,
                           r: Outcome, rows': seq<StakeStats>)
    requires i < |rows|
  {
    var sk := rows[i];
    && (r.Done? <==> !MustDestakeFirst(st, sk, stakePerToken, stakeTo))
    && (r.Aborted? ==> r.reason == "must destake before restaking" && rows' == rows)
    && (r.Done? ==>
          && rows' == (if Erases(st, sk, stakePerToken, stakeTo, deleteStakeAcct) then rows[..i] + rows[i + 1..]
                       else rows[i := Updated(sk, stakePerToken, stakeTokenContract, stakeTo)])
          && r.intents == SetStakeIntents(st, sk, stakePerToken, stakeTokenContract, stakeTo, deleteStakeAcct, scale))
  }

  // ---------------------------------------------------------------------

  class Token {
    /** `stat`: one row per symbol scope. */
    var stats: StatsTable
    /** `stakes`: the stake rows of each symbol scope, in primary-key order. */
    var stakes: StakesTable
    /** `accounts`: one row per owner scope and symbol code. */
    var accounts: AccountsTable

    /** The most stake rows `setstake` will add to (the guard admits one more). */
    const maxStakeCount: nat
    /** The sentinel `stake_to` that asks for a stake row to be deleted. */
    const deleteStakeAcct: Name
    /** The collateral quantity function shared by staking and unstaking. */
    const collateral: CollateralFn

    ghost predicate Valid()
      reads this
    {
      Consistent(stats, stakes, accounts, maxStakeCount)
    }

    constructor (maxStakeCount: nat, deleteStakeAcct: Name, collateral: CollateralFn)
      ensures Valid()
      ensures stats == map[] && stakes == map[] && accounts == map[]
      ensures this.maxStakeCount == maxStakeCount && this.deleteStakeAcct == deleteStakeAcct
      ensures this.collateral == collateral
    {
      this.maxStakeCount := maxStakeCount;
      this.deleteStakeAcct := deleteStakeAcct;
      this.collateral := collateral;
      stats, stakes, accounts := map[], map[], map[];
      EmptyConsistent(maxStakeCount);
    }

    /** `create`: a new token starts with supply 0 and transfers unfrozen; an
        existing one is reconfigured, keeping its supply amount and freeze state. */
    method Create(host: Host, issuer: Name, maximumSupply: Asset, membershipMgr: Name, withdrawalMgr: Name,
                  withdrawTo: Name, freezeMgr: Name, bearerRedeem: bool, configLocked: bool) returns (r: Outcome)
      requires Valid()
      modifies this
      ensures Valid()
      ensures r.Aborted? ==> unchanged(this)
      ensures stakes == old(stakes) && accounts == old(accounts)
      ensures var g := CreateGate(host, old(stats), issuer, maximumSupply, membershipMgr, withdrawalMgr, withdrawTo, freezeMgr);
        && (r.Done? <==> g.Passed?)
        && (g.Failed? ==> r == Aborted(g.reason))
      ensures var c := maximumSupply.sym.code;
        r.Done? ==>
          && r.intents == []
          && stats == old(stats)[c := CurrencyStats(
               Asset(if c in old(stats) then old(stats)[c].supply.amount else 0, maximumSupply.sym),
               maximumSupply, issuer, membershipMgr, withdrawalMgr, withdrawTo, freezeMgr,
               bearerRedeem, configLocked, c in old(stats) && old(stats)[c].transfersFrozen)]
    {
      var gate := CreateGate(host, stats, issuer, maximumSupply, membershipMgr, withdrawalMgr, withdrawTo, freezeMgr);
      if gate.Failed? { return Aborted(gate.reason); }
      var sym := maximumSupply.sym;
      var c := sym.code;
      var row;
      if c in stats {
        var st := stats[c];
        row := st.(supply := st.supply.(sym := sym), maxSupply := maximumSupply, issuer := issuer,
                   membershipMgr := membershipMgr, withdrawalMgr := withdrawalMgr, withdrawTo := withdrawTo,
                   freezeMgr := freezeMgr, bearerRedeem := bearerRedeem, configLocked := configLocked);
      } else {
        row := CurrencyStats(Asset(0, sym), maximumSupply, issuer, membershipMgr, withdrawalMgr, withdrawTo,
                             freezeMgr, bearerRedeem, configLocked, false);
      }
      CreatePreserves(stats, stakes, accounts, maxStakeCount, c, row);
      stats := stats[c := row];
      r := Done([]);
    }

    /** `setstake`: add a stake row for a new `staketoken` key, or reconfigure,
        destake or delete the row that has the key. */
    method SetStake(host: Host, issuer: Name, tokenCode: SymbolCode, stakePerToken: Asset, stakeTokenContract: Name,
                    stakeTo: Name, memo: string) returns (r: Outcome)
      requires Valid()
      modifies this
      ensures Valid()
      ensures r.Aborted? ==> unchanged(this)
      ensures stats == old(stats) && accounts == old(accounts)
      ensures var g := SetStakeGate(host, old(stats), issuer, tokenCode, stakePerToken, stakeTokenContract,
                                    stakeTo, memo, deleteStakeAcct);
        g.Failed? ==> r == Aborted(g.reason)
      ensures r.Done? ==> stakes == old(stakes)[tokenCode := StakesOf(stakes, tokenCode)]
      ensures SetStakeGate(host, old(stats), issuer, tokenCode, stakePerToken, stakeTokenContract,
                           stakeTo, memo, deleteStakeAcct).Passed? ==>
        var rows := StakesOf(old(stakes), tokenCode);
        match FindStakeToken(rows, (stakePerToken.sym, stakeTokenContract))
        case None =>
          EmplaceOutcome(rows, stakePerToken, stakeTokenContract, stakeTo, maxStakeCount, deleteStakeAcct,
                         r, StakesOf(stakes, tokenCode))
        case Some(i) =>
          RestakeOutcome(old(stats)[tokenCode], rows, i, stakePerToken, stakeTokenContract, stakeTo, deleteStakeAcct,
                         collateral, r, StakesOf(stakes, tokenCode))
    {
      var gate := SetStakeGate(host, stats, issuer, tokenCode, stakePerToken, stakeTokenContract, stakeTo, memo, deleteStakeAcct);
      if gate.Failed? { return Aborted(gate.reason); }
      var st := stats[tokenCode];
      var rows := StakesOf(stakes, tokenCode);
      assert StakeRowsOk(rows, maxStakeCount);
      var existing := FindStakeToken(rows, (stakePerToken.sym, stakeTokenContract));
      var rows';
      if existing.Some? {
        r, rows' := RestakeRow(st, rows, existing.value, stakePerToken, stakeTokenContract, stakeTo);
      } else {
        r, rows' := EmplaceRow(rows, stakePerToken, stakeTokenContract, stakeTo);
      }
      if r.Done? {
        StakesPreserves(stats, stakes, accounts, maxStakeCount, tokenCode, rows');
        stakes := stakes[tokenCode := rows'];
      }
      assert rows == StakesOf(old(stakes), tokenCode) && st == old(stats)[tokenCode];
    }

    /** The part of `setstake` that adds a row for a new `staketoken` key, under
        the count guard and never for the delete sentinel. */
    method EmplaceRow(rows: seq<StakeStats>, stakePerToken: Asset, stakeTokenContract: Name, stakeTo: Name)
      returns (r: Outcome, rows': seq<StakeStats>)
      requires StakeRowsOk(rows, maxStakeCount)
      requires forall i :: 0 <= i < |rows| ==> StakeToken(rows[i]) != (stakePerToken.sym, stakeTokenContract)
      requires stakePerToken.amount >= 0
      ensures StakeRowsOk(rows', maxStakeCount)
      ensures EmplaceOutcome(rows, stakePerToken, stakeTokenContract, stakeTo, maxStakeCount, deleteStakeAcct, r, rows')
    {
      if |rows| > maxStakeCount { return Aborted("stake count exceeded"), rows; }
      if stakeTo == deleteStakeAcct { return Aborted("invalid stake_to account"), rows; }
      var row := StakeStats(NextIndex(rows), stakePerToken, stakeTokenContract, stakeTo);
      EmplaceKeepsRows(rows, row, maxStakeCount);
      r, rows' := Done([]), rows + [row];
    }

    /** The part of `setstake` that reconfigures the existing row `rows[i]`:
        the new rows of the symbol and the transfers to send. */
    method RestakeRow(st: CurrencyStats, rows: seq<StakeStats>, i: nat,
                      stakePerToken: Asset, stakeTokenContract: Name, stakeTo: Name)
      returns (r: Outcome, rows': seq<StakeStats>)
      requires StakeRowsOk(rows, maxStakeCount)
      requires i < |rows| && StakeToken(rows[i]) == (stakePerToken.sym, stakeTokenContract)
      requires stakePerToken.amount >= 0
      ensures StakeRowsOk(rows', maxStakeCount)
      ensures RestakeOutcome(st, rows, i, stakePerToken, stakeTokenContract, stakeTo, deleteStakeAcct, collateral, r, rows')
    {
      var sk := rows[i];
      var restaking := stakePerToken != sk.stakePerToken || stakeTo != sk.stakeTo;
      var destaking := stakeTo == sk.stakeTo && stakePerToken.amount == 0;
      var intents: seq<TransferIntent> := [];
      rows' := rows;
      var erased := false;
      if st.supply.amount != 0 {
        if destaking {
          intents := UnstakeOne(st, sk, st.issuer, st.supply.amount, collateral);
        } else if restaking {
          if sk.stakePerToken.amount != 0 { return Aborted("must destake before restaking"), rows; }
          if stakeTo == deleteStakeAcct {
            EraseKeepsRows(rows, i, maxStakeCount);
            rows' := rows[..i] + rows[i + 1..];
            erased := true;
          }
        }
      }
      var updated := sk.(stakePerToken := stakePerToken, stakeTokenContract := stakeTokenContract, stakeTo := stakeTo);
      if !erased {
        ModifyKeepsRows(rows, i, updated, maxStakeCount);
        rows' := rows[i := updated];
      }
      if restaking && !erased {
        intents := intents + StakeOne(st, updated, st.supply.amount, collateral);
      }
      r := Done(intents);
    }

    /** `issue`: the issuer creates `quantity` new tokens into its own balance,
        within the maximum supply, and stakes collateral for them. */
    method Issue(host: Host, quantity: Asset, memo: string) returns (r: Outcome)
      requires Valid()
      modifies this
      ensures Valid()
      ensures r.Aborted? ==> unchanged(this)
      ensures stakes == old(stakes)
      ensures var g := IssueGate(host, old(stats), quantity, memo);
        g.Failed? ==> r == Aborted(g.reason)
      ensures var c := quantity.sym.code;
        r.Done? <==>
          && IssueGate(host, old(stats), quantity, memo).Passed?
          && ((old(stats)[c].issuer, c) in old(accounts) ==>
                old(accounts)[(old(stats)[c].issuer, c)].balance.sym == quantity.sym)
      ensures var c := quantity.sym.code;
        r.Done? ==>
          && stats == WithSupply(old(stats), c, Asset(old(stats)[c].supply.amount + quantity.amount, quantity.sym))
          && accounts == Credit(old(accounts), old(stats)[c].issuer, quantity)
          && r.intents == StakeIntents(stats[c], StakesOf(stakes, c), quantity.amount, collateral)
    {
      var gate := IssueGate(host, stats, quantity, memo);
      if gate.Failed? { return Aborted(gate.reason); }
      var c := quantity.sym.code;
      var st := stats[c];
      IssuePreserves(stats, stakes, accounts, maxStakeCount, quantity);
      var stats0 := stats;
      var supply := AddAsset(st.supply, quantity);
      assert supply.Ok?;
      stats := stats[c := st.(supply := supply.value)];
      var intents := StakeAll(stats[c], StakesOf(stakes, c), quantity.amount, collateral);
      var added := AddBalance(st.issuer, quantity, st.issuer);
      if added.Failed? {
        stats := stats0;
        return Aborted(added.reason);
      }
      r := Done(intents);
    }

    /** `retire`: an owner destroys `quantity` of its tokens and receives the
        collateral staked for them. */
    method Retire(host: Host, owner: Name, quantity: Asset, memo: string) returns (r: Outcome)
      requires Valid()
      modifies this
      ensures Valid()
      ensures r.Aborted? ==> unchanged(this)
      ensures stakes == old(stakes)
      ensures var g := RetireGate(host, old(stats), owner, quantity, memo);
        g.Failed? ==> r == Aborted(g.reason)
      ensures var k := (owner, quantity.sym.code);
        r.Done? <==>
          && RetireGate(host, old(stats), owner, quantity, memo).Passed?
          && k in old(accounts)
          && old(accounts)[k].balance.amount >= quantity.amount
          && old(accounts)[k].balance.sym == quantity.sym
      ensures var k := (owner, quantity.sym.code);
        RetireGate(host, old(stats), owner, quantity, memo).Passed? && k in old(accounts)
        && old(accounts)[k].balance.amount < quantity.amount
        ==> r == Aborted("overdrawn balance")
      ensures RetireGate(host, old(stats), owner, quantity, memo).Passed? && (owner, quantity.sym.code) !in old(accounts)
        ==> r == Aborted("no balance object found")
      ensures var c := quantity.sym.code;
        r.Done? ==>
          && stats == WithSupply(old(stats), c, Asset(old(stats)[c].supply.amount - quantity.amount, quantity.sym))
          && accounts == Debit(old(accounts), owner, quantity)
          && r.intents == UnstakeIntents(stats[c], StakesOf(stakes, c), owner, quantity.amount, collateral)
    {
      var gate := RetireGate(host, stats, owner, quantity, memo);
      if gate.Failed? { return Aborted(gate.reason); }
      var c := quantity.sym.code;
      var st := stats[c];
      var stats0 := stats;
      var supply := SubAsset(st.supply, quantity);
      assert supply.Ok?;
      stats := stats[c := st.(supply := supply.value)];
      if (owner, c) in accounts {
        BalanceAtMostTotal(accounts, (owner, c));
        if accounts[(owner, c)].balance.amount >= quantity.amount {
          RetirePreserves(stats0, stakes, accounts, maxStakeCount, owner, quantity);
        }
      }
      var subbed := SubBalance(owner, quantity);
      if subbed.Failed? {
        stats := stats0;
        return Aborted(subbed.reason);
      }
      var intents := UnstakeAll(stats[c], StakesOf(stakes, c), owner, quantity.amount, collateral);
      r := Done(intents);
    }

    /** `transfer`: move `quantity` from `from` to `to`; the supply and every
        other row are unchanged. */
    method Transfer(host: Host, from: Name, to: Name, quantity: Asset, memo: string) returns (r: Outcome)
      requires Valid()
      modifies this
      ensures Valid()
      ensures r.Aborted? ==> unchanged(this)
      ensures stats == old(stats) && stakes == old(stakes)
      ensures var g := TransferGate(host, old(stats), old(accounts), from, to, quantity, memo);
        g.Failed? ==> r == Aborted(g.reason)
      ensures var c := quantity.sym.code;
        r.Done? <==>
          && TransferGate(host, old(stats), old(accounts), from, to, quantity, memo).Passed?
          && (from, c) in old(accounts)
          && old(accounts)[(from, c)].balance.amount >= quantity.amount
          && old(accounts)[(from, c)].balance.sym == quantity.sym
          && ((to, c) in old(accounts) ==> old(accounts)[(to, c)].balance.sym == quantity.sym)
      ensures var k := (from, quantity.sym.code);
        TransferGate(host, old(stats), old(accounts), from, to, quantity, memo).Passed? ==>
          && (k !in old(accounts) ==> r == Aborted("no balance object found"))
          && (k in old(accounts) && old(accounts)[k].balance.amount < quantity.amount ==> r == Aborted("overdrawn balance"))
      ensures r.Done? ==>
        && r.intents == []
        && accounts == Credit(Debit(old(accounts), from, quantity), to, quantity)
        && forall c' :: Total(accounts, c') == Total(old(accounts), c')
    {
      var gate := TransferGate(host, stats, accounts, from, to, quantity, memo);
      if gate.Failed? { return Aborted(gate.reason); }
      var c := quantity.sym.code;
      var payer := if host.HasAuth(to) then to else from;
      var accounts0 := accounts;
      if (from, c) in accounts {
        BalanceAtMostTotal(accounts, (from, c));
        if accounts[(from, c)].balance.amount >= quantity.amount {
          TransferPreserves(stats, stakes, accounts, maxStakeCount, from, to, quantity);
        }
      }
      var subbed := SubBalance(from, quantity);
      if subbed.Failed? { return Aborted(subbed.reason); }
      var added := AddBalance(to, quantity, payer);
      if added.Failed? {
        accounts := accounts0;
        return Aborted(added.reason);
      }
      forall c' ensures Total(accounts, c') == Total(accounts0, c') {
        TransferConserves(accounts0, from, to, quantity, c');
      }
      r := Done([]);
    }

    /** `sub_balance`: debit the owner's row, which must exist and cover `value`. */
    method SubBalance(owner: Name, value: Asset) returns (ok: Check)
      modifies this`accounts
      ensures var k := (owner, value.sym.code);
        ok.Passed? <==>
          && k in old(accounts)
          && old(accounts)[k].balance.amount >= value.amount
          && old(accounts)[k].balance.sym == value.sym
          && -MaxAmount <= old(accounts)[k].balance.amount - value.amount <= MaxAmount
      ensures (owner, value.sym.code) !in old(accounts) ==> ok == Failed("no balance object found")
      ensures var k := (owner, value.sym.code);
        k in old(accounts) && old(accounts)[k].balance.amount < value.amount ==> ok == Failed("overdrawn balance")
      ensures ok.Passed? ==> accounts == Debit(old(accounts), owner, value)
      ensures ok.Failed? ==> accounts == old(accounts)
    {
      var k := (owner, value.sym.code);
      if k !in accounts { return Failed("no balance object found"); }
      var from := accounts[k];
      if from.balance.amount < value.amount { return Failed("overdrawn balance"); }
      var diff := SubAsset(from.balance, value);
      if diff.Fail? { return Failed(diff.reason); }
      accounts := accounts[k := Account(diff.value)];
      ok := Passed;
    }

    /** `add_balance`: credit the owner's row, creating it (paid by `ramPayer`) when absent. */
    method AddBalance(owner: Name, value: Asset, ramPayer: Name) returns (ok: Check)
      modifies this`accounts
      ensures var k := (owner, value.sym.code);
        ok.Passed? <==>
          (k in old(accounts) ==>
             && old(accounts)[k].balance.sym == value.sym
             && -MaxAmount <= old(accounts)[k].balance.amount + value.amount <= MaxAmount)
      ensures ok.Passed? ==> accounts == Credit(old(accounts), owner, value)
      ensures ok.Failed? ==> accounts == old(accounts)
    {
      var k := (owner, value.sym.code);
      if k !in accounts {
        accounts := accounts[k := Account(value)];
      } else {
        var sum := AddAsset(accounts[k].balance, value);
        if sum.Fail? { return Failed(sum.reason); }
        accounts := accounts[k := Account(sum.value)];
      }
      ok := Passed;
    }

    /** `open`: a zero balance row for the owner, paid by `ramPayer`; an existing row is left alone. */
    method Open(host: Host, owner: Name, symbolCode: SymbolCode, ramPayer: Name) returns (r: Outcome)
      requires Valid()
      modifies this
      ensures Valid()
      ensures r.Aborted? ==> unchanged(this)
      ensures stats == old(stats) && stakes == old(stakes)
      ensures var g := OpenGate(host, old(stats), owner, symbolCode, ramPayer);
        && (r.Done? <==> g.Passed?)
        && (g.Failed? ==> r == Aborted(g.reason))
      ensures r.Done? ==>
        && r.intents == []
        && accounts == Opened(old(accounts), owner, old(stats)[symbolCode].supply.sym)
    {
      var gate := OpenGate(host, stats, owner, symbolCode, ramPayer);
      if gate.Failed? { return Aborted(gate.reason); }
      var st := stats[symbolCode];
      OpenPreserves(stats, stakes, accounts, maxStakeCount, owner, symbolCode);
      if (owner, symbolCode) !in accounts {
        accounts := accounts[(owner, symbolCode) := Account(Asset(0, st.supply.sym))];
      }
      r := Done([]);
    }

    /** `close`: erase the owner's zero balance row. */
    method Close(host: Host, owner: Name, symbolCode: SymbolCode) returns (r: Outcome)
      requires Valid()
      modifies this
      ensures Valid()
      ensures r.Aborted? ==> unchanged(this)
      ensures stats == old(stats) && stakes == old(stakes)
      ensures var g := CloseGate(host, old(stats), old(accounts), owner, symbolCode);
        && (r.Done? <==> g.Passed?)
        && (g.Failed? ==> r == Aborted(g.reason))
      ensures r.Done? ==> r.intents == [] && accounts == Closed(old(accounts), owner, symbolCode)
    {
      var gate := CloseGate(host, stats, accounts, owner, symbolCode);
      if gate.Failed? { return Aborted(gate.reason); }
      ClosePreserves(stats, stakes, accounts, maxStakeCount, owner, symbolCode);
      accounts := accounts - {(owner, symbolCode)};
      r := Done([]);
    }

    /** `freeze`: the freeze manager sets `transfers_frozen`. */
    method Freeze(host: Host, symbolCode: SymbolCode, freeze: bool, memo: string) returns (r: Outcome)
      requires Valid()
      modifies this
      ensures Valid()
      ensures r.Aborted? ==> unchanged(this)
      ensures stakes == old(stakes) && accounts == old(accounts)
      ensures var g := FreezeGate(host, old(stats), symbolCode, memo);
        && (r.Done? <==> g.Passed?)
        && (g.Failed? ==> r == Aborted(g.reason))
      ensures r.Done? ==> r.intents == [] && stats == WithFrozen(old(stats), symbolCode, freeze)
    {
      var gate := FreezeGate(host, stats, symbolCode, memo);
      if gate.Failed? { return Aborted(gate.reason); }
      var st := stats[symbolCode];
      FreezePreserves(stats, stakes, accounts, maxStakeCount, symbolCode, freeze);
      stats := stats[symbolCode := st.(transfersFrozen := freeze)];
      r := Done([]);
    }
  }
}
