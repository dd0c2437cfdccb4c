/** The eosio primitives the token contract is written against: account names,
    symbols, assets with the library's checked arithmetic, and the host services
    (signatures and account existence) an action consults. */
module Eosio {

  /** An account name; only compared for equality here. */
  type Name = string

  /** A symbol code such as "RBW"; its 64-bit packing is not modelled. */
  type SymbolCode = string

  /** The decimal precision of a symbol (a uint8). */
  type Precision = p: int | 0 <= p < 256

  datatype Symbol = Symbol(precision: Precision, code: SymbolCode)

  datatype Asset = Asset(amount: int, sym: Symbol)

  /** The largest amount an asset may hold: 2^62 - 1. */
  const MaxAmount: int := 0x3FFF_FFFF_FFFF_FFFF

  /** A symbol code is one to seven upper-case letters. */
  predicate ValidCode(c: SymbolCode)
  {
    0 < |c| <= 7 && forall i :: 0 <= i < |c| ==> 'A' <= c[i] <= 'Z'
  }

  predicate ValidSymbol(s: Symbol)
  {
    ValidCode(s.code)
  }

  /** An asset is valid when its amount is within +/- MaxAmount and its symbol is valid. */
  predicate ValidAsset(a: Asset)
  {
    -MaxAmount <= a.amount <= MaxAmount && ValidSymbol(a.sym)
  }

  /** The outcome of a step that can abort the action with a message. */
  datatype Check = Passed | Failed(reason: string)

  datatype Result<T> = Ok(value: T) | Fail(reason: string)

  datatype Option<T> = None | Some(value: T)

  /** `a += b` on assets: same symbol, and the sum stays within range. */
  function AddAsset(a: Asset, b: Asset): (r: Result<Asset>)
    ensures r.Ok? <==> a.sym == b.sym && -MaxAmount <= a.amount + b.amount <= MaxAmount
    ensures r.Ok? ==> r.value.sym == a.sym && r.value.amount - a.amount == b.amount
  {
    if b.sym != a.sym then Fail("attempt to add asset with different symbol")
    else if a.amount + b.amount < -MaxAmount then Fail("addition underflow")
    else if a.amount + b.amount > MaxAmount then Fail("addition overflow")
    else Ok(Asset(a.amount + b.amount, a.sym))
  }

  /** `a -= b` on assets: same symbol, and the difference stays within range. */
  function SubAsset(a: Asset, b: Asset): (r: Result<Asset>)
    ensures r.Ok? <==> a.sym == b.sym && -MaxAmount <= a.amount - b.amount <= MaxAmount
    ensures r.Ok? ==> r.value.sym == a.sym && a.amount - r.value.amount == b.amount
  {
    if b.sym != a.sym then Fail("attempt to subtract asset with different symbol")
    else if a.amount - b.amount < -MaxAmount then Fail("subtraction underflow")
    else if a.amount - b.amount > MaxAmount then Fail("subtraction overflow")
    else Ok(Asset(a.amount - b.amount, a.sym))
  }

  /** Subtracting what was added gives back the original asset. */
  lemma AddThenSub(a: Asset, b: Asset)
    requires AddAsset(a, b).Ok? && ValidAsset(a)
    ensures SubAsset(AddAsset(a, b).value, b) == Ok(a)
  {
  }

  /** What the host tells an action: who signed the transaction and which
      accounts exist on the chain. */
  datatype Host = Host(signers: set<Name>, accounts: set<Name>)
  {
    predicate HasAuth(n: Name) { n in signers }

    predicate IsAccount(n: Name) { n in accounts }

    /** `require_auth(n)`: aborts with the host's message unless `n` signed. */
    function RequireAuth(n: Name): (c: Check)
      ensures c.Passed? <==> HasAuth(n)
    {
      if n in signers then Passed else Failed("missing authority of " + n)
    }
  }
}
