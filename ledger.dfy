/** The ledger's consistency: how the stats, stakes and accounts tables of the
    token contract constrain one another, the table updates the actions make,
    and the lemmas that each update keeps the tables consistent. The central
    fact is that the supply of every symbol is the sum of its balances. */
module Ledger {
  import opened Eosio
  import opened Tables

  type AccountKey = (Name, SymbolCode)

  ghost function Pick(s: set<AccountKey>): AccountKey
    requires s != {}
  {
    var k :| k in s; k
  }

  /** What row `k` contributes to the balances of symbol code `c`. */
  function Share(accounts: AccountsTable, k: AccountKey, c: SymbolCode): int
    requires k in accounts
  {
    if k.1 == c then accounts[k].balance.amount else 0
  }

  /** The sum of all balances of symbol code `c`, over every owner. */
  ghost function Total(accounts: AccountsTable, c: SymbolCode): int
    decreases |accounts|
  {
    if accounts.Keys == {} then 0
    else
      var k := Pick(accounts.Keys);
      assert (accounts - {k}).Keys == accounts.Keys - {k};
      Share(accounts, k, c) + Total(accounts - {k}, c)
  }

  /** One step of the sum: the picked row and the rest. */
  lemma TotalStep(accounts: AccountsTable, c: SymbolCode)
    requires accounts.Keys != {}
    ensures var k := Pick(accounts.Keys);
      Total(accounts, c) == Share(accounts, k, c) + Total(accounts - {k}, c)
  {
  }

  /** Removing two distinct rows in either order leaves the same, smaller tables. */
  lemma RemoveBoth(accounts: AccountsTable, k: AccountKey, k': AccountKey)
    requires k in accounts && k' in accounts && k != k'
    ensures |accounts - {k}| < |accounts| && |accounts - {k'}| < |accounts|
    ensures (accounts - {k'}) - {k} == (accounts - {k}) - {k'}
  {
    assert (accounts - {k}).Keys == accounts.Keys - {k};
    assert (accounts - {k'}).Keys == accounts.Keys - {k'};
  }

  /** The sum can be split at any row. */
  lemma {:induction false} TotalRemove(accounts: AccountsTable, k: AccountKey, c: SymbolCode)
    requires k in accounts
    ensures Total(accounts, c) == Share(accounts, k, c) + Total(accounts - {k}, c)
    decreases |accounts|
  {
    var k' := Pick(accounts.Keys);
    TotalStep(accounts, c);
    if k' != k {
      RemoveBoth(accounts, k, k');
      TotalRemove(accounts - {k'}, k, c);
      TotalRemove(accounts - {k}, k', c);
    }
  }

  lemma TotalSet(accounts: AccountsTable, k: AccountKey, a: Account, c: SymbolCode)
    ensures Total(accounts[k := a], c)
         == Total(accounts, c) - (if k in accounts then Share(accounts, k, c) else 0)
            + (if k.1 == c then a.balance.amount else 0)
  {
    var m := accounts[k := a];
    TotalRemove(m, k, c);
    if k in accounts {
      TotalRemove(accounts, k, c);
      assert m - {k} == accounts - {k};
    } else {
      assert m - {k} == accounts;
    }
  }

  /** A symbol nobody holds sums to zero. */
  lemma {:induction false} TotalWithoutCode(accounts: AccountsTable, c: SymbolCode)
    requires forall k :: k in accounts ==> k.1 != c
    ensures Total(accounts, c) == 0
    decreases |accounts|
  {
    if accounts.Keys != {} {
      var k := Pick(accounts.Keys);
      assert (accounts - {k}).Keys == accounts.Keys - {k};
      TotalWithoutCode(accounts - {k}, c);
    }
  }

  ghost predicate NonNegative(accounts: AccountsTable)
  {
    forall k :: k in accounts ==> accounts[k].balance.amount >= 0
  }

  lemma {:induction false} TotalNonNegative(accounts: AccountsTable, c: SymbolCode)
    requires NonNegative(accounts)
    ensures Total(accounts, c) >= 0
    decreases |accounts|
  {
    if accounts.Keys != {} {
      var k := Pick(accounts.Keys);
      assert (accounts - {k}).Keys == accounts.Keys - {k};
      TotalNonNegative(accounts - {k}, c);
    }
  }

  /** With no negative balance, no single balance exceeds the sum of its symbol. */
  lemma BalanceAtMostTotal(accounts: AccountsTable, k: AccountKey)
    requires NonNegative(accounts) && k in accounts
    ensures accounts[k].balance.amount <= Total(accounts, k.1)
  {
    TotalRemove(accounts, k, k.1);
    TotalNonNegative(accounts - {k}, k.1);
  }

  /** With no negative balance, two balances of one symbol together do not exceed its sum. */
  lemma TwoBalancesAtMostTotal(accounts: AccountsTable, k1: AccountKey, k2: AccountKey)
    requires NonNegative(accounts) && k1 in accounts && k2 in accounts
    requires k1 != k2 && k1.1 == k2.1
    ensures accounts[k1].balance.amount + accounts[k2].balance.amount <= Total(accounts, k1.1)
  {
    TotalRemove(accounts, k1, k1.1);
    BalanceAtMostTotal(accounts - {k1}, k2);
  }

  // ---------------------------------------------------------------------
  // The table updates of the actions

  /** An owner's balance amount of a symbol code, 0 when there is no row. */
  function BalanceOf(accounts: AccountsTable, owner: Name, c: SymbolCode): int
  {
    if (owner, c) in accounts then accounts[(owner, c)].balance.amount else 0
  }

  /** `add_balance`: the owner's row of `value`'s symbol gains `value`, created when absent. */
  function Credit(accounts: AccountsTable, owner: Name, value: Asset): AccountsTable
  {
    accounts[(owner, value.sym.code) := Account(Asset(BalanceOf(accounts, owner, value.sym.code) + value.amount, value.sym))]
  }

  /** `sub_balance`: the owner's row of `value`'s symbol loses `value`, a credit of its negation. */
  function Debit(accounts: AccountsTable, owner: Name, value: Asset): AccountsTable
  {
    Credit(accounts, owner, Asset(-value.amount, value.sym))
  }

  /** `open`: a zero balance row of `sym` for the owner, unless one exists. */
  function Opened(accounts: AccountsTable, owner: Name, sym: Symbol): AccountsTable
  {
    if (owner, sym.code) in accounts then accounts else accounts[(owner, sym.code) := Account(Asset(0, sym))]
  }

  /** `close`: the owner's row of symbol code `c` is erased. */
  function Closed(accounts: AccountsTable, owner: Name, c: SymbolCode): AccountsTable
  {
    accounts - {(owner, c)}
  }

  /** The stats row of `c` with a new supply. */
  function WithSupply(stats: StatsTable, c: SymbolCode, supply: Asset): StatsTable
    requires c in stats
  {
    stats[c := stats[c].(supply := supply)]
  }

  /** `freeze`: the stats row of `c` with `transfers_frozen` set to `frozen`. */
  function WithFrozen(stats: StatsTable, c: SymbolCode, frozen: bool): StatsTable
    requires c in stats
  {
    stats[c := stats[c].(transfersFrozen := frozen)]
  }

  /** Debiting what was credited to an existing row of the same symbol restores the table. */
  lemma CreditThenDebit(accounts: AccountsTable, owner: Name, value: Asset)
    requires (owner, value.sym.code) in accounts && accounts[(owner, value.sym.code)].balance.sym == value.sym
    ensures Debit(Credit(accounts, owner, value), owner, value) == accounts
  {
    var k := (owner, value.sym.code);
    assert Debit(Credit(accounts, owner, value), owner, value)[k] == accounts[k];
  }

  /** Crediting changes the sum of the credited symbol by the credited amount and no other sum. */
  lemma TotalAfterCredit(accounts: AccountsTable, owner: Name, value: Asset, c: SymbolCode)
    ensures Total(Credit(accounts, owner, value), c)
         == Total(accounts, c) + (if c == value.sym.code then value.amount else 0)
  {
    TotalSet(accounts, (owner, value.sym.code),
             Account(Asset(BalanceOf(accounts, owner, value.sym.code) + value.amount, value.sym)), c);
  }

  /** Debiting changes the sum of the debited symbol by the debited amount and no other sum. */
  lemma TotalAfterDebit(accounts: AccountsTable, owner: Name, value: Asset, c: SymbolCode)
    ensures Total(Debit(accounts, owner, value), c)
         == Total(accounts, c) - (if c == value.sym.code then value.amount else 0)
  {
    TotalSet(accounts, (owner, value.sym.code),
             Account(Asset(BalanceOf(accounts, owner, value.sym.code) - value.amount, value.sym)), c);
  }

  /** A transfer conserves every symbol's sum of balances, and it touches only
      the sender's and the recipient's rows. */
  lemma TransferConserves(accounts: AccountsTable, from: Name, to: Name, value: Asset, c: SymbolCode)
    requires from != to
    ensures Total(Credit(Debit(accounts, from, value), to, value), c) == Total(accounts, c)
    ensures var after := Credit(Debit(accounts, from, value), to, value);
      forall k :: k != (from, value.sym.code) && k != (to, value.sym.code) ==>
        (k in after <==> k in accounts) && (k in accounts ==> after[k] == accounts[k])
    ensures BalanceOf(Credit(Debit(accounts, from, value), to, value), from, value.sym.code)
         == BalanceOf(accounts, from, value.sym.code) - value.amount
    ensures BalanceOf(Credit(Debit(accounts, from, value), to, value), to, value.sym.code)
         == BalanceOf(accounts, to, value.sym.code) + value.amount
  {
    TotalAfterDebit(accounts, from, value, c);
    TotalAfterCredit(Debit(accounts, from, value), to, value, c);
  }

  /** Opening twice is opening once. */
  lemma OpenIdempotent(accounts: AccountsTable, owner: Name, sym: Symbol)
    ensures Opened(Opened(accounts, owner, sym), owner, sym) == Opened(accounts, owner, sym)
    ensures (owner, sym.code) in accounts ==> Opened(accounts, owner, sym) == accounts
  {
  }

  /** Closing a freshly opened row restores the table. */
  lemma CloseUndoesOpen(accounts: AccountsTable, owner: Name, sym: Symbol)
    requires (owner, sym.code) !in accounts
    ensures Closed(Opened(accounts, owner, sym), owner, sym.code) == accounts
  {
    assert Closed(Opened(accounts, owner, sym), owner, sym.code).Keys == accounts.Keys;
  }

  /** Freezing is idempotent and touches nothing but `transfers_frozen`. */
  lemma FreezeIdempotent(stats: StatsTable, c: SymbolCode, frozen: bool)
    requires c in stats
    ensures WithFrozen(WithFrozen(stats, c, frozen), c, frozen) == WithFrozen(stats, c, frozen)
    ensures WithFrozen(stats, c, frozen)[c].(transfersFrozen := stats[c].transfersFrozen) == stats[c]
  {
  }

  // ---------------------------------------------------------------------
  // Consistency of the three tables

  /** A stats row: keyed by its supply's code, supply and maximum share a
      symbol, and 0 <= supply <= maximum <= MaxAmount with a positive maximum. */
  ghost predicate StatsRowOk(c: SymbolCode, s: CurrencyStats)
  {
    && StatsPrimaryKey(s) == c
    && s.maxSupply.sym == s.supply.sym
    && 0 <= s.supply.amount <= s.maxSupply.amount <= MaxAmount
    && 0 < s.maxSupply.amount
  }

  /** An account row: keyed by its balance's code, of a symbol that has a stats row,
      and never negative. */
  ghost predicate AccountRowOk(stats: StatsTable, k: AccountKey, a: Account)
  {
    AccountPrimaryKey(a) == k.1 && k.1 in stats && a.balance.amount >= 0
  }

  /** The stake rows of a symbol: in primary-key order, unique on the
      `staketoken` key, at most one past the configured count, non-negative stakes. */
  ghost predicate StakeRowsOk(rows: seq<StakeStats>, maxStakeCount: nat)
  {
    && IndicesIncreasing(rows)
    && SecondaryUnique(rows)
    && |rows| <= maxStakeCount + 1
    && forall i :: 0 <= i < |rows| ==> rows[i].stakePerToken.amount >= 0
  }

  /** The contract's tables are consistent. */
  ghost predicate Consistent(stats: StatsTable, stakes: StakesTable, accounts: AccountsTable, maxStakeCount: nat)
  {
    && (forall c :: c in stats ==> StatsRowOk(c, stats[c]))
    && (forall k :: k in accounts ==> AccountRowOk(stats, k, accounts[k]))
    && (forall c :: c in stakes ==> c in stats && StakeRowsOk(stakes[c], maxStakeCount))
    && (forall c :: c in stats ==> stats[c].supply.amount == Total(accounts, c))
  }

  /** Empty tables are consistent. */
  lemma EmptyConsistent(maxStakeCount: nat)
    ensures Consistent(map[], map[], map[], maxStakeCount)
  {
  }

  /** The supply that `get_supply` reports is the sum of the balances, and the
      balance that `get_balance` reports lies between 0 and that supply. */
  lemma LookupsAgree(stats: StatsTable, stakes: StakesTable, accounts: AccountsTable, n: nat, owner: Name, c: SymbolCode)
    requires Consistent(stats, stakes, accounts, n)
    ensures GetSupply(stats, c).Ok? ==> GetSupply(stats, c).value.amount == Total(accounts, c)
    ensures GetBalance(accounts, owner, c).Ok? ==>
      GetSupply(stats, c).Ok? &&
      0 <= GetBalance(accounts, owner, c).value.amount <= GetSupply(stats, c).value.amount
  {
    if (owner, c) in accounts {
      BalanceAtMostTotal(accounts, (owner, c));
    }
  }

  /** In consistent tables an owner holds at most one balance row per symbol code,
      and a symbol scope holds the one stats row of that symbol. */
  lemma OneRowPerPrimaryKey(stats: StatsTable, stakes: StakesTable, accounts: AccountsTable, n: nat,
                            k1: AccountKey, k2: AccountKey, c: SymbolCode)
    requires Consistent(stats, stakes, accounts, n)
    ensures (k1 in accounts && k2 in accounts && k1.0 == k2.0
             && AccountPrimaryKey(accounts[k1]) == AccountPrimaryKey(accounts[k2])) ==> k1 == k2
    ensures c in stats ==> StatsPrimaryKey(stats[c]) == c
  {
  }

  /** Crediting a row of an existing symbol and raising the supply by the same
      amount keeps every supply equal to the sum of its balances. */
  lemma SumsAfterCredit(stats: StatsTable, accounts: AccountsTable, owner: Name, q: Asset)
    requires q.sym.code in stats
    requires forall c :: c in stats ==> stats[c].supply.amount == Total(accounts, c)
    ensures var stats' := WithSupply(stats, q.sym.code, Asset(stats[q.sym.code].supply.amount + q.amount, q.sym));
      forall c :: c in stats' ==> stats'[c].supply.amount == Total(Credit(accounts, owner, q), c)
  {
    var stats' := WithSupply(stats, q.sym.code, Asset(stats[q.sym.code].supply.amount + q.amount, q.sym));
    forall c | c in stats' ensures stats'[c].supply.amount == Total(Credit(accounts, owner, q), c) {
      TotalAfterCredit(accounts, owner, q, c);
    }
  }

  /** Crediting a row of an existing symbol keeps every account row well formed
      while the credited balance stays non-negative. */
  lemma RowsAfterCredit(stats: StatsTable, accounts: AccountsTable, owner: Name, q: Asset, supply: Asset)
    requires q.sym.code in stats
    requires forall k :: k in accounts ==> AccountRowOk(stats, k, accounts[k])
    requires BalanceOf(accounts, owner, q.sym.code) + q.amount >= 0
    ensures var stats', accounts' := WithSupply(stats, q.sym.code, supply), Credit(accounts, owner, q);
      forall k :: k in accounts' ==> AccountRowOk(stats', k, accounts'[k])
  {
  }

  /** Moving the supply of a symbol and one of its balances by the same amount
      keeps the tables consistent, while the supply stays within its maximum
      and the balance non-negative. */
  lemma SupplyMovePreserves(stats: StatsTable, stakes: StakesTable, accounts: AccountsTable, n: nat, owner: Name, q: Asset)
    requires Consistent(stats, stakes, accounts, n)
    requires q.sym.code in stats && q.sym == stats[q.sym.code].supply.sym
    requires 0 <= stats[q.sym.code].supply.amount + q.amount <= stats[q.sym.code].maxSupply.amount
    requires BalanceOf(accounts, owner, q.sym.code) + q.amount >= 0
    ensures Consistent(WithSupply(stats, q.sym.code, Asset(stats[q.sym.code].supply.amount + q.amount, q.sym)),
                       stakes, Credit(accounts, owner, q), n)
  {
    var supply := Asset(stats[q.sym.code].supply.amount + q.amount, q.sym);
    SumsAfterCredit(stats, accounts, owner, q);
    RowsAfterCredit(stats, accounts, owner, q, supply);
  }

  /** `issue` keeps the tables consistent: the supply and the issuer's balance
      rise together, and neither overflows. */
  lemma IssuePreserves(stats: StatsTable, stakes: StakesTable, accounts: AccountsTable, n: nat, q: Asset)
    requires Consistent(stats, stakes, accounts, n)
    requires q.sym.code in stats
    requires q.sym == stats[q.sym.code].supply.sym
    requires 0 < q.amount <= stats[q.sym.code].maxSupply.amount - stats[q.sym.code].supply.amount
    ensures BalanceOf(accounts, stats[q.sym.code].issuer, q.sym.code) + q.amount <= MaxAmount
    ensures Consistent(WithSupply(stats, q.sym.code, Asset(stats[q.sym.code].supply.amount + q.amount, q.sym)),
                       stakes, Credit(accounts, stats[q.sym.code].issuer, q), n)
  {
    var c := q.sym.code;
    if (stats[c].issuer, c) in accounts {
      BalanceAtMostTotal(accounts, (stats[c].issuer, c));
    }
    SupplyMovePreserves(stats, stakes, accounts, n, stats[c].issuer, q);
  }

  /** Debiting a row of an existing symbol and lowering the supply by the same
      amount keeps every supply equal to the sum of its balances. */
  lemma SumsAfterDebit(stats: StatsTable, accounts: AccountsTable, owner: Name, q: Asset)
    requires q.sym.code in stats
    requires forall c :: c in stats ==> stats[c].supply.amount == Total(accounts, c)
    ensures var stats' := WithSupply(stats, q.sym.code, Asset(stats[q.sym.code].supply.amount - q.amount, q.sym));
      forall c :: c in stats' ==> stats'[c].supply.amount == Total(Debit(accounts, owner, q), c)
  {
    var stats' := WithSupply(stats, q.sym.code, Asset(stats[q.sym.code].supply.amount - q.amount, q.sym));
    forall c | c in stats' ensures stats'[c].supply.amount == Total(Debit(accounts, owner, q), c) {
      TotalAfterDebit(accounts, owner, q, c);
    }
  }

  /** `retire` keeps the tables consistent: the supply and the owner's balance
      fall together, and the supply stays non-negative. */
  lemma RetirePreserves(stats: StatsTable, stakes: StakesTable, accounts: AccountsTable, n: nat, owner: Name, q: Asset)
    requires Consistent(stats, stakes, accounts, n)
    requires q.sym.code in stats && q.sym == stats[q.sym.code].supply.sym && q.amount > 0
    requires (owner, q.sym.code) in accounts
    requires accounts[(owner, q.sym.code)].balance.amount >= q.amount
    ensures stats[q.sym.code].supply.amount - q.amount >= 0
    ensures Consistent(WithSupply(stats, q.sym.code, Asset(stats[q.sym.code].supply.amount - q.amount, q.sym)),
                       stakes, Debit(accounts, owner, q), n)
  {
    var c := q.sym.code;
    var supply := Asset(stats[c].supply.amount - q.amount, q.sym);
    BalanceAtMostTotal(accounts, (owner, c));
    SumsAfterDebit(stats, accounts, owner, q);
    RowsAfterCredit(stats, accounts, owner, Asset(-q.amount, q.sym), supply);
  }

  /** `transfer` keeps the tables consistent, and the recipient's balance does not overflow. */
  lemma TransferPreserves(stats: StatsTable, stakes: StakesTable, accounts: AccountsTable, n: nat,
                          from: Name, to: Name, q: Asset)
    requires Consistent(stats, stakes, accounts, n)
    requires from != to && q.sym.code in stats && q.amount > 0
    requires (from, q.sym.code) in accounts
    requires accounts[(from, q.sym.code)].balance.amount >= q.amount
    ensures BalanceOf(accounts, to, q.sym.code) + q.amount <= MaxAmount
    ensures Consistent(stats, stakes, Credit(Debit(accounts, from, q), to, q), n)
  {
    var c := q.sym.code;
    var accounts' := Credit(Debit(accounts, from, q), to, q);
    if (to, c) in accounts {
      TwoBalancesAtMostTotal(accounts, (from, c), (to, c));
    } else {
      BalanceAtMostTotal(accounts, (from, c));
    }
    forall c' | c' in stats ensures stats[c'].supply.amount == Total(accounts', c') {
      TransferConserves(accounts, from, to, q, c');
    }
  }

  /** `open` keeps the tables consistent. */
  lemma OpenPreserves(stats: StatsTable, stakes: StakesTable, accounts: AccountsTable, n: nat, owner: Name, c: SymbolCode)
    requires Consistent(stats, stakes, accounts, n) && c in stats
    ensures Consistent(stats, stakes, Opened(accounts, owner, stats[c].supply.sym), n)
  {
    var sym := stats[c].supply.sym;
    if (owner, c) !in accounts {
      forall c' | c' in stats ensures stats[c'].supply.amount == Total(Opened(accounts, owner, sym), c') {
        TotalSet(accounts, (owner, c), Account(Asset(0, sym)), c');
      }
    }
  }

  /** `close` of a zero balance keeps the tables consistent. */
  lemma ClosePreserves(stats: StatsTable, stakes: StakesTable, accounts: AccountsTable, n: nat, owner: Name, c: SymbolCode)
    requires Consistent(stats, stakes, accounts, n)
    requires (owner, c) in accounts && accounts[(owner, c)].balance.amount == 0
    ensures Consistent(stats, stakes, Closed(accounts, owner, c), n)
  {
    forall c' | c' in stats ensures stats[c'].supply.amount == Total(Closed(accounts, owner, c), c') {
      TotalRemove(accounts, (owner, c), c');
    }
  }

  /** `freeze` keeps the tables consistent. */
  lemma FreezePreserves(stats: StatsTable, stakes: StakesTable, accounts: AccountsTable, n: nat, c: SymbolCode, frozen: bool)
    requires Consistent(stats, stakes, accounts, n) && c in stats
    ensures Consistent(WithFrozen(stats, c, frozen), stakes, accounts, n)
  {
  }

  /** `create` keeps the tables consistent: a new symbol starts at supply 0,
      which is the sum of its (absent) balances; a reconfigured symbol keeps its supply. */
  lemma CreatePreserves(stats: StatsTable, stakes: StakesTable, accounts: AccountsTable, n: nat, c: SymbolCode, row: CurrencyStats)
    requires Consistent(stats, stakes, accounts, n)
    requires StatsPrimaryKey(row) == c && row.maxSupply.sym == row.supply.sym
    requires 0 < row.maxSupply.amount <= MaxAmount
    requires c in stats ==> row.supply.amount == stats[c].supply.amount
    requires c in stats && row.supply.amount != 0 ==> row.supply.amount <= row.maxSupply.amount
    requires c !in stats ==> row.supply.amount == 0
    ensures Consistent(stats[c := row], stakes, accounts, n)
  {
    if c !in stats {
      TotalWithoutCode(accounts, c);
    }
  }

  /** Replacing the stake rows of a symbol with well-formed rows keeps the tables consistent. */
  lemma StakesPreserves(stats: StatsTable, stakes: StakesTable, accounts: AccountsTable, n: nat,
                        c: SymbolCode, rows: seq<StakeStats>)
    requires Consistent(stats, stakes, accounts, n) && c in stats && StakeRowsOk(rows, n)
    ensures Consistent(stats, stakes[c := rows], accounts, n)
  {
  }

  /** `emplace` of a new stake row under the next free index with a fresh
      `staketoken` key keeps the rows well formed when the count guard passed. */
  lemma EmplaceKeepsRows(rows: seq<StakeStats>, r: StakeStats, n: nat)
    requires StakeRowsOk(rows, n) && |rows| <= n
    requires r.index == NextIndex(rows) && r.stakePerToken.amount >= 0
    requires forall i :: 0 <= i < |rows| ==> StakeToken(rows[i]) != StakeToken(r)
    ensures StakeRowsOk(rows + [r], n)
  {
  }

  /** `modify` of a stake row that keeps its index and `staketoken` key keeps
      the rows well formed: an existing key is updated, never duplicated. */
  lemma ModifyKeepsRows(rows: seq<StakeStats>, i: nat, r: StakeStats, n: nat)
    requires StakeRowsOk(rows, n) && i < |rows|
    requires r.index == rows[i].index && StakeToken(r) == StakeToken(rows[i]) && r.stakePerToken.amount >= 0
    ensures StakeRowsOk(rows[i := r], n)
  {
  }

  /** `erase` of a stake row keeps the rows well formed. */
  lemma EraseKeepsRows(rows: seq<StakeStats>, i: nat, n: nat)
    requires StakeRowsOk(rows, n) && i < |rows|
    ensures StakeRowsOk(rows[..i] + rows[i + 1..], n)
  {
    var rows' := rows[..i] + rows[i + 1..];
    forall a | 0 <= a < |rows'| ensures rows'[a] == rows[if a < i then a else a + 1] {
    }
  }
}
