/** The rows of the contract's tables and their keys, and the two read-only
    lookups the contract offers to other contracts. */
module Tables {
  import opened Eosio

  /** A holder's balance of one token; the `accounts` table is scoped by owner. */
  datatype Account = Account(balance: Asset)

  /** The per-symbol monetary facts and configuration (`stat` table). */
  datatype CurrencyStats = CurrencyStats(
    supply: Asset,
    maxSupply: Asset,
    issuer: Name,
    membershipMgr: Name,
    withdrawalMgr: Name,
    withdrawTo: Name,
    freezeMgr: Name,
    bearerRedeem: bool,
    configLocked: bool,
    transfersFrozen: bool)

  /** One staking relationship of a token (`stakes` table, scoped by symbol). */
  datatype StakeStats = StakeStats(
    index: nat,
    stakePerToken: Asset,
    stakeTokenContract: Name,
    stakeTo: Name)

  /** The sentinel membership manager that lets anyone hold the token. */
  const AllowAllAcct: Name := "allowallacct"

  /** Accounts are keyed by (owner scope, primary key); stats by symbol scope;
      the stakes of a symbol are held in primary-key order. */
  type AccountsTable = map<(Name, SymbolCode), Account>
  type StatsTable = map<SymbolCode, CurrencyStats>
  type StakesTable = map<SymbolCode, seq<StakeStats>>

  /** `account::primary_key()`: the code of the balance's symbol. */
  function AccountPrimaryKey(a: Account): SymbolCode
  {
    a.balance.sym.code
  }

  /** `currency_stats::primary_key()`: the code of the supply's symbol. */
  function StatsPrimaryKey(s: CurrencyStats): SymbolCode
  {
    s.supply.sym.code
  }

  /** The `staketoken` secondary key: the collateral symbol (precision included)
      and the collateral token contract. */
  function StakeToken(r: StakeStats): (Symbol, Name)
  {
    (r.stakePerToken.sym, r.stakeTokenContract)
  }

  /** The stake rows of a symbol scope (empty when the scope has none). */
  function StakesOf(stakes: StakesTable, code: SymbolCode): seq<StakeStats>
  {
    if code in stakes then stakes[code] else []
  }

  /** `get_supply`: the supply of a symbol; aborts when the symbol has no stats row. */
  function GetSupply(stats: StatsTable, code: SymbolCode): (r: Result<Asset>)
    ensures r.Ok? <==> code in stats
    ensures r.Ok? ==> r.value == stats[code].supply
  {
    if code in stats then Ok(stats[code].supply) else Fail("unable to find key")
  }

  /** `get_balance`: an owner's balance of a symbol; aborts when the row is missing. */
  function GetBalance(accounts: AccountsTable, owner: Name, code: SymbolCode): (r: Result<Asset>)
    ensures r.Ok? <==> (owner, code) in accounts
    ensures r.Ok? ==> r.value == accounts[(owner, code)].balance
  {
    if (owner, code) in accounts then Ok(accounts[(owner, code)].balance) else Fail("unable to find key")
  }

  /** Stake rows are held in strictly increasing primary-key order. */
  predicate IndicesIncreasing(rows: seq<StakeStats>)
  {
    forall i, j :: 0 <= i < j < |rows| ==> rows[i].index < rows[j].index
  }

  /** No two stake rows share a `staketoken` secondary key. */
  predicate SecondaryUnique(rows: seq<StakeStats>)
  {
    forall i, j :: 0 <= i < j < |rows| ==> StakeToken(rows[i]) != StakeToken(rows[j])
  }

  /** `available_primary_key()`: one past the largest index in use, 0 for an empty table. */
  function NextIndex(rows: seq<StakeStats>): (k: nat)
    requires IndicesIncreasing(rows)
    ensures forall i :: 0 <= i < |rows| ==> rows[i].index < k
  {
    if rows == [] then 0 else rows[|rows| - 1].index + 1
  }

  /** The `staketoken` index lookup: the position of the row with key `key`. */
  function FindStakeToken(rows: seq<StakeStats>, key: (Symbol, Name)): (r: Option<nat>)
    ensures r.Some? ==> r.value < |rows| && StakeToken(rows[r.value]) == key
    ensures r.None? ==> forall i :: 0 <= i < |rows| ==> StakeToken(rows[i]) != key
  {
    if rows == [] then None
    else if StakeToken(rows[0]) == key then Some(0)
    else match FindStakeToken(rows[1..], key)
      case None => None
      case Some(i) => Some(i + 1)
  }
}
