# Rainbow token ledger

A Dafny model of the `rainbowtoken` EOSIO contract (RainbowC). It is a
token ledger in the style of `eosio.token` with three additions:

- **Managers.** A membership manager decides who may hold the token. A
  withdrawal manager may pull tokens to a fixed `withdraw_to` account. A
  freeze manager may stop transfers.
- **Optional bearer redemption** (`retire` by anyone other than the issuer).
- **A stake engine.** For every stake row of a token with a positive stake per token, issuing tokens sends
  collateral from the issuer to the row's escrow account, and retiring
  tokens sends the same collateral from the escrow back to the owner.

The model has five modules:

| module | file | contents |
|---|---|---|
| `Eosio` | `eosio.dfy` | Names, symbols and assets, with the library's checked `+=`/`-=` and the 2^62-1 bound. A `Host` value holds the signers and the existing accounts, and gives `has_auth`, `require_auth` and `is_account` from them. |
| `Tables` | `tables.dfy` | The rows of `accounts`, `stat` and `stakes`, and their primary and `staketoken` keys. The read-only lookups `get_supply` and `get_balance`. The index and secondary-key lookups the contract uses on `stakes`. |
| `Ledger` | `ledger.dfy` | The invariant `Consistent` over the three tables. Its central clause: every symbol's supply equals the sum of its balances, over all owners. Also the pure table updates the actions make, and one lemma per action showing the update keeps `Consistent`. |
| `StakeEngine` | `stake_engine.dfy` | `stake_one` and `unstake_one` as functions that return transfer intents. `stake_all` and `unstake_all` as loops over the rows. The net collateral movement (`NetFlow`) of a list of intents, and the lemmas about it. |
| `Rainbow` | `rainbow.dfy` | The class `Token`: the three tables are its fields and every action is a method. Each action first runs a check function (`CreateGate`, `IssueGate`, …), in the contract's own order, so the first failing check gives the abort message. |

How the model represents the contract's world:

- **Aborts.** An action returns `Outcome`. `Done(intents)` carries the
  inline transfers the action sends, in order. `Aborted(reason)` carries the
  contract's message, and the tables are then unchanged. This matches EOSIO
  rolling back the whole transaction.
- **Authorisation and accounts.** These come from the `Host` argument. The
  collateral quantity arithmetic is the `collateral` function of the `Token`
  it belongs to (see "Left out").
- **Deployment constants.** `max_stake_count` and `deletestakeacct` are not
  declared in `rainbow.hpp`. Both are constructor arguments of `Token`.

Facts about this revision of the contract that the model keeps:

- `config_locked` and `bearer_redeem` are booleans.
- There is no `approve` action, and `issue` needs only the issuer's signature.
- A stake row has only `index`, `stake_per_token`, `stake_token_contract` and
  `stake_to`.
- Adding a new stake row stakes nothing for the outstanding supply.
- The count guard is `existing_stake_count <= max_stake_count`, so a symbol
  can hold `max_stake_count + 1` rows.
- `Templates/include/rainbow_templates.hpp` declares a later layout of
  `stake_stats`, with `token_bucket`, `stake_per_bucket` and `proportional`.
  The model uses the fields that `rainbow.cpp` reads and writes.

## Model

| member | source | states |
|---|---|---|
| `Eosio.AddAsset` | RainbowC/src/rainbow.cpp:297-299 | `a += b` succeeds exactly when the symbols agree and the sum stays within ±(2^62-1). The result then has `a`'s symbol and differs from `a` by exactly `b`. Otherwise it aborts with the library's message. |
| `Eosio.SubAsset` | RainbowC/src/rainbow.cpp:283-285 | `a -= b` succeeds exactly when the symbols agree and the difference stays in range. The result then has `a`'s symbol and is `a` minus exactly `b`. |
| `Eosio.AddThenSub` | RainbowC/src/rainbow.cpp:283-299 | Subtracting an asset just added gives back the original valid asset. |
| `Eosio.Host.RequireAuth` | RainbowC/src/rainbow.cpp:14 | `require_auth(n)` passes exactly when `n` signed. |
| `Tables.AccountPrimaryKey` | RainbowC/include/rainbow.hpp:184 | The key of a balance row is the code of its balance's symbol. `Ledger.Consistent` requires every row to sit under that key, and `Ledger.OneRowPerPrimaryKey` draws the consequence. |
| `Tables.StatsPrimaryKey` | RainbowC/include/rainbow.hpp:200 | The key of a stats row is the code of its supply's symbol, required of every row by `Ledger.Consistent`. |
| `Tables.GetSupply` | RainbowC/include/rainbow.hpp:157-162 | Succeeds exactly when the symbol has a stats row, and then returns that row's supply. Otherwise it aborts with "unable to find key". |
| `Tables.GetBalance` | RainbowC/include/rainbow.hpp:164-169 | Succeeds exactly when the owner has a row for the symbol code, and then returns that row's balance. |
| `Tables.NextIndex` | RainbowC/src/rainbow.cpp:127 | `available_primary_key()` returns an index above every index in use. |
| `Tables.FindStakeToken` | RainbowC/src/rainbow.cpp:92-96 | The `staketoken` lookup. A hit is a position whose row has the key; a miss means no row has the key. |
| `Tables.StakeToken` | RainbowC/src/rainbow.cpp:77 | The `staketoken` secondary key of a stake row is its collateral symbol, with precision, together with its collateral contract. `Tables.FindStakeToken` searches on it, and `Ledger.StakeRowsOk` requires it to be unique among a symbol's rows. |
| `Ledger.OneRowPerPrimaryKey` | RainbowC/include/rainbow.hpp:181-204 | In consistent tables, an owner has at most one balance row per symbol code, and each stats row sits under the code of its own supply. |
| `Ledger.LookupsAgree` | RainbowC/include/rainbow.hpp:157-169 | In consistent tables, `get_supply` reports the sum of all balances of that symbol, and a balance `get_balance` reports lies between 0 and that supply. |
| `Ledger.EmptyConsistent` | RainbowC/include/rainbow.hpp:203-204 | Empty tables are consistent. |
| `Ledger.TotalRemove` | RainbowC/src/rainbow.cpp:277-301 | The sum of a symbol's balances splits at any row: that row's share plus the sum over the other rows. |
| `Ledger.TotalNonNegative` | RainbowC/src/rainbow.cpp:281 | With no negative balance, every symbol's sum of balances is non-negative. |
| `Ledger.BalanceAtMostTotal` | RainbowC/src/rainbow.cpp:281 | With no negative balance, a single balance never exceeds its symbol's sum. This is why the issuer's credit and the supply debit cannot overflow. |
| `Ledger.TwoBalancesAtMostTotal` | RainbowC/src/rainbow.cpp:273-274 | Two distinct balances of one symbol together do not exceed its sum. This is why the recipient's credit in a transfer cannot overflow. |
| `Ledger.CreditThenDebit` | RainbowC/src/rainbow.cpp:277-301 | `sub_balance` of what `add_balance` just credited to an existing row restores the table. |
| `Ledger.TotalAfterCredit` | RainbowC/src/rainbow.cpp:288-301 | `add_balance` raises its symbol's sum by the credited amount and leaves every other symbol's sum alone. |
| `Ledger.TotalAfterDebit` | RainbowC/src/rainbow.cpp:277-286 | `sub_balance` lowers its symbol's sum by the debited amount and leaves every other sum alone. |
| `Ledger.TransferConserves` | RainbowC/src/rainbow.cpp:273-274 | A debit of the sender and a credit of the recipient keep every symbol's sum of balances. Only those two rows change: the sender loses exactly the quantity and the recipient gains exactly the quantity. |
| `Ledger.OpenIdempotent` | RainbowC/src/rainbow.cpp:314-321 | Opening twice is opening once, and opening an existing row changes nothing. |
| `Ledger.CloseUndoesOpen` | RainbowC/src/rainbow.cpp:314-336 | Closing a freshly opened row restores the accounts table. |
| `Ledger.FreezeIdempotent` | RainbowC/src/rainbow.cpp:346-348 | Freezing twice is freezing once, and freeze changes no field except `transfers_frozen`. |
| `Ledger.SupplyMovePreserves` | RainbowC/src/rainbow.cpp:152-157 | Moving a symbol's supply and one of its balances by the same amount keeps the tables consistent. This holds while the supply stays within 0 and its maximum and the balance stays non-negative. |
| `Ledger.IssuePreserves` | RainbowC/src/rainbow.cpp:147-157 | After `issue`'s checks, raising the supply and the issuer's balance together keeps the tables consistent, and the issuer's balance cannot overflow. |
| `Ledger.RetirePreserves` | RainbowC/src/rainbow.cpp:224-232 | A retire the owner's balance covers keeps the supply non-negative and the tables consistent. |
| `Ledger.TransferPreserves` | RainbowC/src/rainbow.cpp:257-274 | A transfer the sender's balance covers keeps the tables consistent, and the recipient's balance cannot overflow. |
| `Ledger.OpenPreserves` | RainbowC/src/rainbow.cpp:314-321 | Opening a zero row of the token's symbol keeps the tables consistent. |
| `Ledger.ClosePreserves` | RainbowC/src/rainbow.cpp:333-336 | Erasing a zero balance row keeps the tables consistent. |
| `Ledger.FreezePreserves` | RainbowC/src/rainbow.cpp:346-348 | Setting `transfers_frozen` keeps the tables consistent. |
| `Ledger.CreatePreserves` | RainbowC/src/rainbow.cpp:27-63 | A new symbol starts at supply 0, the sum of its absent balances. A reconfigured symbol keeps its supply amount under a maximum that covers it. Both keep the tables consistent. |
| `Ledger.StakesPreserves` | RainbowC/src/rainbow.cpp:95-131 | Replacing a symbol's stake rows with well-formed rows keeps the tables consistent. |
| `Ledger.EmplaceKeepsRows` | RainbowC/src/rainbow.cpp:123-131 | Adding a row with a fresh `staketoken` key under the next free index, once the count guard has passed, keeps the rows ordered, unique on the secondary key and within the count bound. |
| `Ledger.ModifyKeepsRows` | RainbowC/src/rainbow.cpp:112-116 | Modifying a row without changing its index or `staketoken` key keeps the rows well formed, so an existing key is updated and never duplicated. |
| `Ledger.EraseKeepsRows` | RainbowC/src/rainbow.cpp:107-109 | Erasing a stake row keeps the rows well formed. |
| `StakeEngine.StakeOne` | RainbowC/src/rainbow.cpp:160-176 | `stake_one` sends a transfer exactly when the row's stake per token is positive, and at most one. That transfer goes from the issuer, on its authority, to the row's escrow, on the row's collateral contract, in the row's collateral symbol, with memo "rainbow stake". |
| `StakeEngine.UnstakeOne` | RainbowC/src/rainbow.cpp:185-201 | `unstake_one` sends a transfer exactly when the row's stake per token is positive, and at most one. That transfer goes from the escrow, on its authority, to the owner, on the row's collateral contract, in the collateral symbol, with memo "rainbow unstake". |
| `StakeEngine.StakeQuantity` | RainbowC/src/rainbow.cpp:162-164 | The collateral quantity always has the stake row's collateral symbol. |
| `StakeEngine.UnstakeMirrorsStake` | RainbowC/src/rainbow.cpp:160-201 | `unstake_one` emits a transfer exactly when `stake_one` does. The two transfers carry the same quantity on the same contract. The stake transfer goes from the issuer to the escrow under the issuer's `active` authority. The unstake transfer goes from the escrow to the owner under the escrow's `active` authority. |
| `StakeEngine.StakedExactlyPositive` | RainbowC/src/rainbow.cpp:161 | A row is among the staked rows exactly when it is in the table with a positive stake per token. |
| `StakeEngine.StakedInTableOrder` | RainbowC/src/rainbow.cpp:178-183 | The staked rows keep the table's primary-key order. |
| `StakeEngine.StakeIntentsPerRow` | RainbowC/src/rainbow.cpp:178-183 | `stake_all` emits one stake transfer per staked row, in order, and nothing for rows with a zero stake. |
| `StakeEngine.UnstakeIntentsPerRow` | RainbowC/src/rainbow.cpp:202-207 | `unstake_all` emits one unstake transfer per staked row, in order. |
| `StakeEngine.StakeAll` | RainbowC/src/rainbow.cpp:178-183 | The loop over the stake rows emits exactly the intents of `StakeIntents`: one stake transfer for the k-th staked row, at position k. |
| `StakeEngine.UnstakeAll` | RainbowC/src/rainbow.cpp:202-207 | The loop emits exactly the intents of `UnstakeIntents`: one unstake transfer to the owner for the k-th staked row, at position k. |
| `StakeEngine.NetFlowAppend` | RainbowC/src/rainbow.cpp:178-207 | The net collateral movement of two lists of transfers, sent one after the other, is the sum of their movements. |
| `StakeEngine.UnstakeOneUndoesStakeOne` | RainbowC/src/rainbow.cpp:160-201 | Unstaking one row back to the issuer moves exactly the opposite of staking it, for every account and collateral. |
| `StakeEngine.UnstakeUndoesStake` | RainbowC/src/rainbow.cpp:178-207 | Unstaking an amount back to the issuer over all rows undoes staking that amount, for every account and collateral. |
| `StakeEngine.IntentsReadIssuerAndPrecision` | RainbowC/src/rainbow.cpp:160-207 | `stake_all` and `unstake_all` read only the issuer and the supply's precision from the stats row they are given. Two rows agreeing on those yield the same intents, whatever their supply amounts. |
| `StakeEngine.IssueThenRetireNetsZero` | RainbowC/src/rainbow.cpp:152-157 | The issuer issuing a quantity and then retiring the same quantity, over the same stake rows, leaves every account's collateral where it was. `issue` passes the row after raising the supply and `retire` the row after lowering it. The lemma holds for any two rows with the same issuer and precision, so it covers the rows `Rainbow.Token.Issue` and `Rainbow.Token.Retire` actually use. |
| `Rainbow.CreateGate` | RainbowC/src/rainbow.cpp:14-36 | `create`'s checks pass exactly when all of these hold: the issuer signed; the symbol and the maximum are valid; the maximum is positive; the manager accounts exist (or the membership manager is `allowallacct`). For an existing symbol, also: the configuration is unlocked, the issuer is the same, and with supply outstanding the precision is kept and the maximum covers the supply. A locked configuration always aborts. |
| `Rainbow.SetStakeGate` | RainbowC/src/rainbow.cpp:74-91 | `setstake`'s checks pass exactly when all of these hold: the issuer signed; the memo has at most 256 characters; the stake is valid and non-negative; the stake token contract exists; `stake_to` exists unless it is the delete sentinel; the token exists, is unlocked and has this issuer. |
| `Rainbow.IssueGate` | RainbowC/src/rainbow.cpp:138-150 | `issue`'s checks pass exactly when all of these hold: the token exists; its issuer signed; the quantity is positive, of the token's symbol and precision, and within the remaining maximum supply. A missing token aborts with the "create token before issue" message. |
| `Rainbow.RetireGate` | RainbowC/src/rainbow.cpp:212-226 | `retire`'s checks pass exactly when all of these hold: the token exists; the owner signed; the quantity is positive and of the token's symbol. With bearer redeem, transfers must not be frozen; without it, the owner must be the issuer. Each of the two refusals gives its own message. |
| `Rainbow.TransferGate` | RainbowC/src/rainbow.cpp:241-267 | `transfer`'s checks pass exactly when all of these hold: the accounts are distinct and exist; under a membership manager, the recipient has a row; the quantity is valid, positive and of the token's symbol; the memo is short. Unless the withdrawal manager is sending to `withdraw_to`, the sender must also sign, and a sender other than the issuer needs transfers unfrozen. The self, membership and frozen refusals carry their messages. |
| `Rainbow.Withdrawing` | RainbowC/src/rainbow.cpp:262 | A transfer is a withdrawal when the withdrawal manager signed and the recipient is `withdraw_to`. `Rainbow.TransferGate` states what it exempts: the sender's signature and the freeze check. |
| `Rainbow.OpenGate` | RainbowC/src/rainbow.cpp:305-312 | `open`'s checks pass exactly when all of these hold: the RAM payer signed; the owner exists; the token exists; a managed token's membership manager signed. |
| `Rainbow.CloseGate` | RainbowC/src/rainbow.cpp:326-335 | `close`'s checks pass exactly when all of these hold: the token exists; the owner signed, unless the membership manager of a managed token did; the row exists and holds zero. A non-zero balance aborts with the contract's message. |
| `Rainbow.Managed` | RainbowC/src/rainbow.cpp:329 | The membership manager of a managed token (one whose manager is not `allowallacct`) signed. `Rainbow.CloseGate` states that this replaces the owner's signature. `Rainbow.OpenGate` (line 309) requires the signature of a managed token's manager. |
| `Rainbow.FreezeGate` | RainbowC/src/rainbow.cpp:341-345 | `freeze`'s checks pass exactly when the token exists, the memo is short and the freeze manager signed. |
| `Rainbow.Restaking` | RainbowC/src/rainbow.cpp:98-99 | A `setstake` on an existing row restakes when the stake per token or the escrow changes. `Rainbow.SetStakeIntents` and `Rainbow.Token.RestakeRow` state what a restake does. |
| `Rainbow.Destaking` | RainbowC/src/rainbow.cpp:100-101 | A `setstake` on an existing row destakes when the escrow stays and the stake per token drops to zero. `Rainbow.DestakeReturnsCollateral` states what a destake sends. |
| `Rainbow.MustDestakeFirst` | RainbowC/src/rainbow.cpp:102-106 | With supply outstanding, a change that is not a destake but is a restake, of a row that still stakes, is refused. `Rainbow.Token.RestakeRow` states that exactly these calls abort with "must destake before restaking". |
| `Rainbow.Erases` | RainbowC/src/rainbow.cpp:102-109 | With supply outstanding, a restake (not a destake) to the delete sentinel erases the row, once the row's stake is already zero (otherwise `Rainbow.MustDestakeFirst` refuses it first). `Rainbow.Token.RestakeRow` states that the row is then removed, and `Rainbow.SetStakeIntents` that nothing is sent. |
| `Rainbow.Updated` | RainbowC/src/rainbow.cpp:112-116 | The `modify` updater: the row with the new stake per token, collateral contract and escrow, keeping its index. `Ledger.ModifyKeepsRows` and `Rainbow.Token.RestakeRow` state that the updated row keeps the rows well formed. |
| `Rainbow.SetStakeIntents` | RainbowC/src/rainbow.cpp:102-119 | The transfers of `setstake` on an existing row. There are at most two: the unstake of a destake, then the restake under `sk` as `modify` left it. A call that changes neither the stake nor the escrow sends nothing, and so does one that erases the row. With no supply outstanding, only stake transfers are possible. |
| `Rainbow.DestakeReturnsCollateral` | RainbowC/src/rainbow.cpp:100-104 | With supply outstanding, destaking a row that stakes sends exactly one transfer: the whole supply's collateral, from the escrow back to the issuer. The restake at line 118 sees `sk` after `modify` set its stake to zero, so it sends nothing. |
| `Rainbow.SetStakeSettlesEscrow` | RainbowC/src/rainbow.cpp:95-119 | With tokens outstanding, a successful `setstake` on an existing row moves exactly the difference between what the new row should hold for the supply and what the old row held. This holds for every account and collateral. |
| `Rainbow.RestakeStakesNewCollateral` | RainbowC/src/rainbow.cpp:105-119 | With tokens outstanding, restaking a zeroed row to a positive stake sends one transfer: the new collateral for the whole supply, from the issuer to the new escrow. |
| `Rainbow.Token.constructor` | RainbowC/include/rainbow.hpp:203-204 | A freshly deployed contract has empty tables, which are consistent. |
| `Rainbow.Token.Create` | RainbowC/src/rainbow.cpp:5-65 | Commits exactly when `CreateGate` passes, and otherwise aborts with its message and changes nothing. The symbol's stats row becomes the given configuration. The supply keeps its amount (0 for a new symbol) under the new symbol. `transfers_frozen` is kept, or is false for a new symbol. The tables stay consistent. |
| `Rainbow.Token.SetStake` | RainbowC/src/rainbow.cpp:67-132 | A failed check aborts with its message. For a new `staketoken` key, a row is added under the next index, subject to the count and sentinel guards. For an existing key, one of three things happens: the restake of a row that still stakes is refused with "must destake before restaking"; the row is erased; or the row is updated in place. The transfers sent are those of `SetStakeIntents`. Only that symbol's stake rows change, and they stay ordered and unique. |
| `Rainbow.Token.EmplaceRow` | RainbowC/src/rainbow.cpp:122-131 | Adds the new row exactly when the count guard passes and `stake_to` is not the delete sentinel, and sends nothing. The rows stay well formed. |
| `Rainbow.Token.RestakeRow` | RainbowC/src/rainbow.cpp:95-120 | Refuses exactly a restake of a still-staking row while supply is outstanding. Otherwise it erases or updates the row and returns the transfers of `SetStakeIntents`. The rows stay well formed. |
| `Rainbow.Token.Issue` | RainbowC/src/rainbow.cpp:135-158 | Commits exactly when `IssueGate` passes and any existing issuer row shares the symbol. The supply and the issuer's balance then rise by the quantity. The stake transfers for the quantity are sent over the token's stake rows. The tables stay consistent, and an abort changes nothing. |
| `Rainbow.Token.Retire` | RainbowC/src/rainbow.cpp:209-234 | Commits exactly when `RetireGate` passes and the owner's row of that symbol covers the quantity. A missing row aborts with "no balance object found", and an uncovered quantity with "overdrawn balance". The supply and the owner's balance then fall by the quantity, and the unstake transfers to the owner are sent. The tables stay consistent. |
| `Rainbow.Token.Transfer` | RainbowC/src/rainbow.cpp:236-275 | Commits exactly when `TransferGate` passes, the sender's row covers the quantity, and any recipient row shares the symbol. A missing sender row aborts with "no balance object found", and an uncovered quantity with "overdrawn balance". The sender is debited and the recipient credited. Every symbol's sum of balances is unchanged, no transfers are sent, and the stats and stakes stay the same. |
| `Rainbow.Token.SubBalance` | RainbowC/src/rainbow.cpp:277-286 | Fails with "no balance object found" when the row is missing, and with "overdrawn balance" when the row does not cover the value. Otherwise it debits exactly that row. |
| `Rainbow.Token.AddBalance` | RainbowC/src/rainbow.cpp:288-301 | Credits the owner's row, or creates it holding the value. It fails only when an existing row's symbol differs or the sum leaves the range. |
| `Rainbow.Token.Open` | RainbowC/src/rainbow.cpp:303-322 | Commits exactly when `OpenGate` passes. It then adds a zero row of the token's symbol unless one exists. |
| `Rainbow.Token.Close` | RainbowC/src/rainbow.cpp:324-337 | Commits exactly when `CloseGate` passes. It then erases only the owner's row of that symbol. |
| `Rainbow.Token.Freeze` | RainbowC/src/rainbow.cpp:339-349 | Commits exactly when `FreezeGate` passes. It then sets `transfers_frozen` of that token and nothing else. |

## Left out

- Collateral scaling: `stake_one` and `unstake_one` compute the collateral as `round(stake_per_token * amount / 10^precision)` in `double`. The model uses the uninterpreted `CollateralFn`, shared by staking and unstaking, so nothing is proved about rounding. The same function gives the same quantity in both directions, which is what the round trip relies on.
- Host services: signatures, account existence and the RAM payer are inputs (`Host`, `ramPayer`). `require_recipient` notifications are dropped. Inline `transfer` actions are returned as intents, never executed. The model does not represent the collateral token contract accepting or rejecting them.
- RAM payers: `same_payer`, and `transfer` picking the recipient as payer when it signed, carry no ledger meaning. `AddBalance` takes the payer but ignores it.
- `resetram` is a development-only wipe that parses table and scope names. It is not part of this model.
- The separate `rainbowtemplates` contract (`Templates/`) is not part of this model. Its `stake_stats` declaration describes a later row layout, see above.
- `staking_ratio` is declared in the stats row but never read or written by the actions. It is omitted from `CurrencyStats`.
- Header declarations that disagree with `rainbow.cpp` are not modelled: the `issue(to, …)` signature, and `symbol` rather than `symbol_code` in `open`, `close` and `freeze`. The model follows `rainbow.cpp`.
- `name` and `symbol_code` encodings are abstracted to strings. `symbol::is_valid` is abstracted to one to seven upper-case letters. The 64-bit packing, `name` validity and the `uint64_t` stake index (unbounded `nat` here) are not modelled.
- Memo length is counted in characters, not UTF-8 bytes.
- `Rainbow.Token.SetStake`: `modify` and `erase` are called on `sk`, a by-value copy of the row. The model follows the multi_index library's `modify`, which runs its updater on the object it is given. `sk` therefore holds the updated values when line 118 restakes it. `modify` and `erase` are taken to act on the row with `sk`'s primary key. The source itself calls `modify(sk, …)` at line 112 right after `erase(sk)` at line 108, with no `return` between them. The model takes that `modify` as a no-op that leaves `sk`'s zero stake in place. The library's "object passed to modify is not in multi_index" check is not modelled, and neither is its update of an erased row. A copy is not a table item, so on the chain both may abort where the model commits.
- `Rainbow.Token.SetStake`: `max_stake_count` and `deletestakeacct` are constructor arguments, because their definitions are not part of this model.
- `Rainbow.Token.Issue`: the stake intents are computed from the stats row after the supply update, as the code's `const` reference sees it. Likewise for `Rainbow.Token.Retire`. The row's supply carries no weight in `StakeQuantity` beyond its precision, which the update does not change.
- Concurrency does not arise: each action is one atomic transaction, and an abort rolls the tables back.
