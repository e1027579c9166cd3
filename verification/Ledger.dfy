/** The token accounts and the lending position one pool acts on, and the calls it makes on
    them. Token transfers fail when the source is short. The lending market is assumed to
    take exactly the amounts it is given, to charge `fee` extra debt on a borrow, and to
    refuse a withdrawal or a repayment larger than the position. Accounts are distinct. */
module Ledger {
  import opened Wad
  import opened PortRate

  /** An account key; `Default` is the all-zero key the program also uses for "unset". */
  datatype Key = Default | Address(id: nat)

  datatype Accounts = Accounts(
    poolLiquidity: nat,            // the pool's liquidity wallet
    feeLiquidity: nat,             // the fee receiver's wallet
    poolCollateral: nat,           // collateral tokens held outside the position
    collateral: nat,               // the position: collateral deposited
    debt: nat,                     // the position: liquidity owed
    lpSupply: nat,                 // supply of the LP mint
    userLiquidity: map<Key, nat>,  // the users' liquidity wallets
    userLp: map<Key, nat>          // the users' LP wallets
  )

  function Balance(wallets: map<Key, nat>, k: Key): nat {
    if k in wallets then wallets[k] else 0
  }

  function Credit(wallets: map<Key, nat>, k: Key, amount: nat): map<Key, nat> {
    wallets[k := Balance(wallets, k) + amount]
  }

  /** A credit reaches its own wallet and no other; an unknown wallet is empty. */
  lemma CreditMoves(wallets: map<Key, nat>, k: Key, amount: nat, other: Key)
    ensures Balance(Credit(wallets, k, amount), k) == Balance(wallets, k) + amount
    ensures other != k ==> Balance(Credit(wallets, k, amount), other) == Balance(wallets, other)
    ensures other !in wallets ==> Balance(wallets, other) == 0
    ensures other in wallets ==> Balance(wallets, other) == wallets[other]
  {
  }

  function TransferUserToPool(a: Accounts, user: Key, amount: nat): Result<Accounts> {
    if Balance(a.userLiquidity, user) < amount then Err(TokenFailure)
    else Ok(a.(userLiquidity := a.userLiquidity[user := Balance(a.userLiquidity, user) - amount],
               poolLiquidity := a.poolLiquidity + amount))
  }

  function TransferPoolToUser(a: Accounts, user: Key, amount: nat): Result<Accounts> {
    if a.poolLiquidity < amount then Err(TokenFailure)
    else Ok(a.(poolLiquidity := a.poolLiquidity - amount,
               userLiquidity := Credit(a.userLiquidity, user, amount)))
  }

  function TransferPoolToFee(a: Accounts, amount: nat): Result<Accounts> {
    if a.poolLiquidity < amount then Err(TokenFailure)
    else Ok(a.(poolLiquidity := a.poolLiquidity - amount, feeLiquidity := a.feeLiquidity + amount))
  }

  function MintLp(a: Accounts, user: Key, amount: nat): Accounts {
    a.(lpSupply := a.lpSupply + amount, userLp := Credit(a.userLp, user, amount))
  }

  function BurnLp(a: Accounts, user: Key, amount: nat): Result<Accounts> {
    if Balance(a.userLp, user) < amount || a.lpSupply < amount then Err(TokenFailure)
    else Ok(a.(lpSupply := a.lpSupply - amount,
               userLp := a.userLp[user := Balance(a.userLp, user) - amount]))
  }

  function DepositAndCollateralize(a: Accounts, rate: Rate, amount: nat): Result<Accounts> {
    if a.poolLiquidity < amount then Err(PortFailure)
    else Ok(a.(poolLiquidity := a.poolLiquidity - amount,
               collateral := a.collateral + LiquidityToCollateral(rate, amount)))
  }

  function Borrow(a: Accounts, amount: nat, fee: nat): Accounts {
    a.(debt := a.debt + amount + fee, poolLiquidity := a.poolLiquidity + amount)
  }

  function Repay(a: Accounts, amount: nat): Result<Accounts> {
    if a.poolLiquidity < amount then Err(TokenFailure)
    else if a.debt < amount then Err(PortFailure)
    else Ok(a.(poolLiquidity := a.poolLiquidity - amount, debt := a.debt - amount))
  }

  function Withdraw(a: Accounts, amount: nat): Result<Accounts> {
    if a.collateral < amount then Err(PortFailure)
    else Ok(a.(collateral := a.collateral - amount, poolCollateral := a.poolCollateral + amount))
  }

  function RedeemCollateral(a: Accounts, rate: Rate, amount: nat): Result<Accounts> {
    if a.poolCollateral < amount then Err(PortFailure)
    else Ok(a.(poolCollateral := a.poolCollateral - amount,
               poolLiquidity := a.poolLiquidity + CollateralToLiquidity(rate, amount)))
  }

  /** Exact worth of the pool, in units of 1/rate: collateral at its exact value, less the
      debt, plus the wallet. */
  function Assets(a: Accounts, rate: Rate): int {
    a.collateral * WAD - a.debt * rate + a.poolLiquidity * rate
  }

  /** How far the debt exceeds `percent`% of the collateral's exact value; at most zero
      when the position is within that percentage. In units of 1/(100 * rate). */
  function Strain(a: Accounts, rate: Rate, percent: nat): int {
    100 * a.debt * rate - percent * (a.collateral * WAD)
  }
}
