/** The other instructions of a pool: its creation, the sale of rewards, and the setters. What
    each accepts and what it leaves, and what a whole history makes of the configuration. */
module Upkeep {
  import opened Wad
  import opened PortRate
  import opened Ledger
  import opened Plan
  import opened Pool
  import Atomicity
  import LpShares
  import RedeemRun

  datatype Config = Config(
    bump: nat, liquidityCap: nat, withdrawFeeBips: nat, minDeposit: nat, portIterate: nat, reservePercentage: nat)

  function ConfigOf(s: State): Config {
    Config(s.bump, s.liquidityCap, s.withdrawFeeBips, s.minDeposit, s.portIterate, s.reservePercentage)
  }

  /* Creation. */

  /** Which parameters make a pool, and the pool they make: the configuration as given, no
      tokens, no position, and nobody's wallet touched. */
  lemma CreationIs(bump: u8, params: InitParams, users: map<Key, nat>)
    ensures CreatePool(bump, params, users).Ok? <==>
            (1 <= params.portIterate <= 9 && 1_000_000 <= params.liquidityCap
             && 1 <= params.portReservePercentage <= 20 && 51 <= params.portMinDeposit)
    ensures CreatePool(bump, params, users).Err? ==> CreatePool(bump, params, users) == Err(InvalidPoolConfig)
    ensures CreatePool(bump, params, users).Ok? ==>
      var s := CreatePool(bump, params, users).value;
      && ConfigOf(s) == Config(bump, params.liquidityCap, params.withdrawFeeBips, params.portMinDeposit,
                               params.portIterate, params.portReservePercentage)
      && s.lpAmount == 0 && s.accounts.lpSupply == 0 && s.accounts.userLp == map[]
      && s.accounts.collateral == 0 && s.accounts.debt == 0 && s.accounts.poolCollateral == 0
      && s.accounts.poolLiquidity == 0 && s.accounts.feeLiquidity == 0 && s.accounts.userLiquidity == users
      && s.port.lastSoldSlot == 0 && s.port == s.port.Reset()
  {
  }

  /* The sale. */

  /** A sale goes through on every valid pool and no other; it moves the proceeds into the
      wallet, records the slot, and touches nothing else. */
  lemma SaleIs(s: State, env: Env, proceeds: nat)
    ensures SellStep(s, env, proceeds).Ok? <==> ValidPool(s).Pass?
    ensures SellStep(s, env, proceeds).Err? ==> SellStep(s, env, proceeds) == Err(InvalidPoolState)
    ensures SellStep(s, env, proceeds).Ok? ==>
      SellStep(s, env, proceeds).value
      == s.(accounts := s.accounts.(poolLiquidity := s.accounts.poolLiquidity + proceeds),
            port := s.port.(lastSoldSlot := env.slot))
  {
  }

  /** The proceeds belong to the holders: the exact assets rise by them, the pool is priced
      that much higher, and the tokens are the same. */
  lemma SaleEnriches(s: State, env: Env, proceeds: nat)
    requires SellStep(s, env, proceeds).Ok?
    ensures var t := SellStep(s, env, proceeds).value;
      && Assets(t.accounts, env.rate) == Assets(s.accounts, env.rate) + proceeds * env.rate
      && t.accounts.collateral == s.accounts.collateral && t.accounts.debt == s.accounts.debt
      && t.lpAmount == s.lpAmount && t.accounts.lpSupply == s.accounts.lpSupply
      && t.accounts.userLp == s.accounts.userLp
      && (PositionValue(env.rate, s.accounts.collateral, s.accounts.debt).Ok? ==>
            RedeemRun.PricedAssets(t, env) == RedeemRun.PricedAssets(s, env) + proceeds * WAD)
  {
    assert (s.accounts.poolLiquidity + proceeds) * env.rate
        == s.accounts.poolLiquidity * env.rate + proceeds * env.rate;
  }

  /** What a holder of `a` tokens can redeem after a sale: exactly what the rate's remainder
      reaches from the old worth and the holder's part of the proceeds. */
  lemma SaleReachesHolders(s: State, env: Env, proceeds: nat, a: nat, units: nat)
    requires SellStep(s, env, proceeds).Ok? && 0 < s.lpAmount && 0 < proceeds
    requires PositionValue(env.rate, s.accounts.collateral, s.accounts.debt).Ok?
    requires var t := SellStep(s, env, proceeds).value;
      LpShares.Redeemed(t.lpAmount, RedeemRun.PricedAssets(t, env), a).Ok?
    ensures var t := SellStep(s, env, proceeds).value;
      var before := RedeemRun.PricedAssets(s, env);
      units <= LpShares.Redeemed(t.lpAmount, RedeemRun.PricedAssets(t, env), a).value <==>
        WAD * (units * (s.lpAmount * WAD) - (a * before + a * (proceeds * WAD)))
        <= units * ((s.lpAmount * WAD * WAD) % (before + proceeds * WAD))
  {
    SaleEnriches(s, env, proceeds);
    var before := RedeemRun.PricedAssets(s, env);
    LpShares.PayoutReachesIff(s.lpAmount, before + proceeds * WAD, a, units);
    assert a * (before + proceeds * WAD) == a * before + a * (proceeds * WAD);
  }

  /** Of a pool as every history leaves it, a sale needs no more than a valid configuration. */
  lemma IdlePoolsCanSell(bump: u8, params: InitParams, users: map<Key, nat>, txs: seq<Atomicity.Transaction>,
                         env: Env, proceeds: nat)
    requires CreatePool(bump, params, users).Ok?
    ensures var s := Atomicity.History(CreatePool(bump, params, users).value, txs);
      SellStep(s, env, proceeds).Ok? <==> s.reservePercentage < 10 && 10 < s.minDeposit
  {
    Atomicity.CreatedPoolsStayIdle(bump, params, users, txs);
  }

  /* The configuration. */

  /** What one instruction makes of the configuration. */
  function Setting(c: Config, ins: Instruction): Config {
    match ins
    case ChangeLiquidityCap(cap) => c.(liquidityCap := cap)
    case ChangeWithdrawFee(bips) => c.(withdrawFeeBips := bips)
    case ChangeMinDeposit(minDeposit) => c.(minDeposit := minDeposit)
    case _ => c
  }

  /** When the setters and the instructions without an effect are accepted: a valid pool, and
      a cap of at least one million. They change their own field and nothing else. */
  lemma SettersAre(s: State, env: Env, ins: Instruction, rest: seq<Instruction>)
    requires || ins.ChangeLiquidityCap? || ins.ChangeWithdrawFee? || ins.ChangeMinDeposit?
             || ins.OtherPole? || ins.Foreign?
    ensures Step(s, env, ins, rest).Ok? <==>
            || ins.Foreign? || ins == OtherPole(false)
            || (ValidPool(s).Pass? && (ins.ChangeLiquidityCap? ==> 1_000_000 <= ins.cap))
    ensures Step(s, env, ins, rest).Err? ==>
      Step(s, env, ins, rest)
      == Err(if ins.ChangeLiquidityCap? && ins.cap < 1_000_000 then InvalidPoolConfig else InvalidPoolState)
    ensures Step(s, env, ins, rest).Ok? ==>
      var t := Step(s, env, ins, rest).value;
      && ConfigOf(t) == Setting(ConfigOf(s), ins)
      && t.lpAmount == s.lpAmount && t.port == s.port && t.accounts == s.accounts
  {
  }

  lemma RedeemKeepsConfig(s: State, env: Env, amount: u64, user: Key, userLp: Key)
    requires RedeemStep(s, env, amount, user, userLp).Ok?
    ensures ConfigOf(RedeemStep(s, env, amount, user, userLp).value) == ConfigOf(s)
  {
    if s.port.isRedeemed != 1 {
      Atomicity.RedeemWorkKeeps(s, env, amount, user, userLp);
    }
  }

  lemma DepositKeepsConfig(s: State, env: Env, amount: u64, user: Key, userLp: Key, fee: nat)
    requires DepositStep(s, env, amount, user, userLp, fee).Ok?
    ensures ConfigOf(DepositStep(s, env, amount, user, userLp, fee).value) == ConfigOf(s)
  {
  }

  /** No instruction but its own setter changes a field of the configuration. */
  lemma StepSets(s: State, env: Env, ins: Instruction, rest: seq<Instruction>)
    requires Step(s, env, ins, rest).Ok?
    ensures ConfigOf(Step(s, env, ins, rest).value) == Setting(ConfigOf(s), ins)
  {
    match ins
    case Deposit(amount, user, userLp, fee) => DepositKeepsConfig(s, env, amount, user, userLp, fee);
    case Redeem(amount, user, userLp) => RedeemKeepsConfig(s, env, amount, user, userLp);
    case _ =>
  }

  /** What a sequence of accepted instructions makes of it. */
  function Settings(c: Config, tx: seq<Instruction>): Config {
    if tx == [] then c else Setting(Settings(c, tx[..|tx| - 1]), tx[|tx| - 1])
  }

  lemma {:induction false} StepsSet(s: State, env: Env, tx: seq<Instruction>, i: nat)
    requires i <= |tx| && Atomicity.After(s, env, tx, i).Ok?
    ensures ConfigOf(Atomicity.After(s, env, tx, i).value) == Settings(ConfigOf(s), tx[..i])
  {
    if i == 0 {
    } else {
      StepsSet(s, env, tx, i - 1);
      StepSets(Atomicity.After(s, env, tx, i - 1).value, env, tx[i - 1], tx[i..]);
      assert tx[..i][..i - 1] == tx[..i - 1];
    }
  }

  lemma RunSets(s: State, env: Env, tx: seq<Instruction>)
    requires Run(s, env, tx).Ok?
    ensures ConfigOf(Run(s, env, tx).value) == Settings(ConfigOf(s), tx)
  {
    Atomicity.RunIsSteps(s, env, tx, |tx|);
    StepsSet(s, env, tx, |tx|);
    assert tx[..|tx|] == tx;
  }

  /** The instructions of a history that were committed, in order. */
  function Committed(s: State, txs: seq<Atomicity.Transaction>): seq<Instruction> {
    if txs == [] then []
    else
      var last := txs[|txs| - 1];
      var before := Atomicity.History(s, txs[..|txs| - 1]);
      Committed(s, txs[..|txs| - 1]) + if Run(before, last.env, last.instructions).Ok? then last.instructions else []
  }

  lemma {:induction false} SettingsCompose(c: Config, a: seq<Instruction>, b: seq<Instruction>)
    ensures Settings(c, a + b) == Settings(Settings(c, a), b)
  {
    if b == [] {
      assert a + b == a;
    } else {
      SettingsCompose(c, a, b[..|b| - 1]);
      assert (a + b)[..|a + b| - 1] == a + b[..|b| - 1];
    }
  }

  /** Over every history the configuration is what its committed instructions set. */
  lemma {:induction false} HistorySets(s: State, txs: seq<Atomicity.Transaction>)
    ensures ConfigOf(Atomicity.History(s, txs)) == Settings(ConfigOf(s), Committed(s, txs))
  {
    if txs == [] {
    } else {
      var last := txs[|txs| - 1];
      var before := Atomicity.History(s, txs[..|txs| - 1]);
      HistorySets(s, txs[..|txs| - 1]);
      if Run(before, last.env, last.instructions).Ok? {
        RunSets(before, last.env, last.instructions);
        SettingsCompose(ConfigOf(s), Committed(s, txs[..|txs| - 1]), last.instructions);
      } else {
        assert Committed(s, txs) == Committed(s, txs[..|txs| - 1]);
      }
    }
  }

  predicate SameSetter(a: Instruction, b: Instruction) {
    || (a.ChangeLiquidityCap? && b.ChangeLiquidityCap?)
    || (a.ChangeWithdrawFee? && b.ChangeWithdrawFee?)
    || (a.ChangeMinDeposit? && b.ChangeMinDeposit?)
  }

  /** The last setter of a field decides it. */
  lemma {:induction false} LastSetterDecides(c: Config, tx: seq<Instruction>, i: nat)
    requires i < |tx| && forall j | i < j < |tx| :: !SameSetter(tx[i], tx[j])
    ensures tx[i].ChangeLiquidityCap? ==> Settings(c, tx).liquidityCap == tx[i].cap
    ensures tx[i].ChangeWithdrawFee? ==> Settings(c, tx).withdrawFeeBips == tx[i].bips
    ensures tx[i].ChangeMinDeposit? ==> Settings(c, tx).minDeposit == tx[i].minDeposit
  {
    if i == |tx| - 1 {
    } else {
      LastSetterDecides(c, tx[..|tx| - 1], i);
      assert !SameSetter(tx[i], tx[|tx| - 1]);
    }
  }

  /** A field nobody sets stays, and what has no setter always does. */
  lemma {:induction false} UnsetStays(c: Config, tx: seq<Instruction>)
    ensures (forall ins | ins in tx :: !ins.ChangeLiquidityCap?) ==> Settings(c, tx).liquidityCap == c.liquidityCap
    ensures (forall ins | ins in tx :: !ins.ChangeWithdrawFee?) ==> Settings(c, tx).withdrawFeeBips == c.withdrawFeeBips
    ensures (forall ins | ins in tx :: !ins.ChangeMinDeposit?) ==> Settings(c, tx).minDeposit == c.minDeposit
    ensures Settings(c, tx).bump == c.bump && Settings(c, tx).portIterate == c.portIterate
    ensures Settings(c, tx).reservePercentage == c.reservePercentage
  {
    if tx == [] {
    } else {
      UnsetStays(c, tx[..|tx| - 1]);
      assert forall ins | ins in tx[..|tx| - 1] :: ins in tx;
      assert tx[|tx| - 1] in tx;
    }
  }
}
