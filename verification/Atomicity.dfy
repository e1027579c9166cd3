/** Safety over whole transactions and whole histories: the plan a look-ahead accepts is
    exactly what the guarded steps consume, so every successful transaction that starts
    idle ends idle, and no two plans are ever open at once. */
module Atomicity {
  import opened Wad
  import opened Ledger
  import opened Plan
  import opened Pool
  import opened PortRate
  import opened Unroll

  predicate Idle(s: State) {
    s.port.leverage == 0 && s.port.depositVerified == 0 && s.port.redeemVerified == 0 && s.port.isRedeemed == 0
  }

  /** A redeem run that has begun and has not paid yet. */
  predicate Unpaid(s: State) {
    s.port.leverage > 0 && s.port.isRedeemed == 0
  }

  /** A run of one kind is open and the instructions still to come complete it. */
  predicate OnPlan(s: State, kind: Kind, rest: seq<Instruction>) {
    var p := PoleOnly(rest);
    var left := s.portIterate - s.port.leverage;
    && (match kind
        case Depositing => s.port.depositVerified == 1 && s.port.redeemVerified == 0 && s.port.isRedeemed == 0
        case Redeeming => s.port.redeemVerified == 1 && s.port.depositVerified == 0 && s.port.isRedeemed <= 1
                          && (Unpaid(s) ==> s.port.amountToUnroll > 0))
    && 0 < left <= |p|
    && forall i | 0 <= i < left :: Matches(kind, p[i])
  }

  predicate Safe(s: State, rest: seq<Instruction>) {
    1 <= s.portIterate && (Idle(s) || OnPlan(s, Depositing, rest) || OnPlan(s, Redeeming, rest))
  }

  /** What an accepted step of a deposit run does to the control fields. */
  lemma DepositStepControl(s: State, env: Env, amount: u64, user: Key, userLp: Key, fee: nat)
    requires DepositStep(s, env, amount, user, userLp, fee).Ok?
    ensures s.port.depositVerified == 1 && ConfigValid(s) && PortValid(s)
    ensures var t := DepositStep(s, env, amount, user, userLp, fee).value;
      && t.portIterate == s.portIterate
      && (if s.port.leverage + 1 == s.portIterate then
            t.port == s.port.Reset().(lastSoldSlot := t.port.lastSoldSlot)
          else
            && t.port.leverage == s.port.leverage + 1
            && t.port.depositVerified == 1 && t.port.redeemVerified == s.port.redeemVerified
            && t.port.isRedeemed == s.port.isRedeemed
            && t.port.approvedWallet == s.port.approvedWallet)
  {
  }

  /** What an accepted step of a redeem run does to the control fields. */
  lemma RedeemStepControl(s: State, env: Env, amount: u64, user: Key, userLp: Key)
    requires RedeemStep(s, env, amount, user, userLp).Ok?
    ensures s.port.redeemVerified == 1 && ConfigValid(s) && PortValid(s)
    ensures var t := RedeemStep(s, env, amount, user, userLp).value;
      && t.portIterate == s.portIterate
      && (if s.port.leverage + 1 == s.portIterate then
            t.port == s.port.Reset()
          else
            && t.port.leverage == s.port.leverage + 1
            && t.port.redeemVerified == 1 && t.port.depositVerified == s.port.depositVerified
            && t.port.approvedWallet == s.port.approvedWallet
            && t.port.isRedeemed <= 1
            && (t.port.isRedeemed == 0 ==>
                  s.port.isRedeemed == 0
                  && if s.port.leverage == 0 then t.port.amountToUnroll > 0
                     else t.port.amountToUnroll == s.port.amountToUnroll))
  {
    if s.port.isRedeemed != 1 {
      RedeemWorkKeeps(s, env, amount, user, userLp);
    }
  }

  /** The fields a redemption's work leaves alone; it burns from record and mint alike. */
  predicate WorkKeeps(s: State, t: State) {
    && t.portIterate == s.portIterate && t.bump == s.bump && t.withdrawFeeBips == s.withdrawFeeBips
    && t.minDeposit == s.minDeposit && t.reservePercentage == s.reservePercentage
    && t.liquidityCap == s.liquidityCap
    && t.port.leverage == s.port.leverage
    && t.port.redeemVerified == s.port.redeemVerified && t.port.depositVerified == s.port.depositVerified
    && t.port.approvedWallet == s.port.approvedWallet && t.port.lastSoldSlot == s.port.lastSoldSlot
    && t.lpAmount - t.accounts.lpSupply == s.lpAmount - s.accounts.lpSupply
    && (t.port.isRedeemed == 1 || t.port.isRedeemed == s.port.isRedeemed)
    && (s.port.leverage > 0 ==> t.port.amountToUnroll == s.port.amountToUnroll)
  }

  lemma UnrollKeeps(s: State, env: Env)
    requires RedeemUnroll(s, env).Ok?
    ensures WorkKeeps(s, RedeemUnroll(s, env).value)
    ensures RedeemUnroll(s, env).value.port == s.port && RedeemUnroll(s, env).value.lpAmount == s.lpAmount
  {
  }

  lemma RedeemWorkKeeps(s: State, env: Env, amount: u64, user: Key, userLp: Key)
    requires RedeemWork(s, env, amount, user, userLp).Ok?
    ensures WorkKeeps(s, RedeemWork(s, env, amount, user, userLp).value)
    ensures s.port.leverage == 0 && RedeemWork(s, env, amount, user, userLp).value.port.isRedeemed != 1 ==>
      RedeemWork(s, env, amount, user, userLp).value.port.amountToUnroll > 0
  {
    var started := if s.port.leverage == 0 then RedeemOpen(s, env, amount, userLp).value else s;
    assert WorkKeeps(s, started);
    UnrollKeeps(started, env);
  }

  lemma StepKeepsIterate(s: State, env: Env, ins: Instruction, rest: seq<Instruction>)
    requires Step(s, env, ins, rest).Ok?
    ensures Step(s, env, ins, rest).value.portIterate == s.portIterate
  {
    match ins
    case Deposit(amount, user, userLp, fee) => DepositStepControl(s, env, amount, user, userLp, fee);
    case Redeem(amount, user, userLp) => RedeemStepControl(s, env, amount, user, userLp);
    case _ =>
  }

  /** An accepted look-ahead opens a plan that the rest of the transaction completes. */
  lemma VerifyOpensPlan(s: State, kind: Kind, rest: seq<Instruction>)
    requires 1 <= s.portIterate && Idle(s) && VerifyStep(s, kind, rest).Ok?
    ensures OnPlan(VerifyStep(s, kind, rest).value, kind, rest)
  {
    ScanExact(kind, rest, s.portIterate, 0, Default);
  }

  lemma IdleStepSafe(s: State, env: Env, ins: Instruction, rest: seq<Instruction>)
    requires 1 <= s.portIterate && Idle(s) && Step(s, env, ins, rest).Ok?
    ensures Safe(Step(s, env, ins, rest).value, rest)
  {
    match ins
    case VerifyDeposit => VerifyOpensPlan(s, Depositing, rest);
    case VerifyRedeem => VerifyOpensPlan(s, Redeeming, rest);
    case Deposit(amount, user, userLp, fee) => DepositStepControl(s, env, amount, user, userLp, fee);
    case Redeem(amount, user, userLp) => RedeemStepControl(s, env, amount, user, userLp);
    case _ =>
  }

  /** On a plan the next instruction of this program is of the plan's kind, and the rest
      still completes the plan. */
  lemma PlanAdvances(s: State, kind: Kind, ins: Instruction, rest: seq<Instruction>)
    requires OnPlan(s, kind, [ins] + rest)
    ensures ins.Foreign? ==> PoleOnly([ins] + rest) == PoleOnly(rest)
    ensures !ins.Foreign? ==>
      && Matches(kind, ins)
      && s.portIterate - s.port.leverage - 1 <= |PoleOnly(rest)|
      && forall i | 0 <= i < s.portIterate - s.port.leverage - 1 :: Matches(kind, PoleOnly(rest)[i])
  {
    assert ([ins] + rest)[1..] == rest;
    if !ins.Foreign? {
      var p := PoleOnly([ins] + rest);
      assert p == [ins] + PoleOnly(rest);
      assert Matches(kind, p[0]);
      assert forall i | 0 <= i < |p| - 1 :: PoleOnly(rest)[i] == p[i + 1];
    }
  }

  lemma PlanStepSafe(s: State, env: Env, kind: Kind, ins: Instruction, rest: seq<Instruction>)
    requires OnPlan(s, kind, [ins] + rest) && Step(s, env, ins, rest).Ok?
    ensures Safe(Step(s, env, ins, rest).value, rest)
  {
    PlanAdvances(s, kind, ins, rest);
    if ins.Deposit? {
      DepositStepControl(s, env, ins.amount, ins.userLiquidity, ins.userLp, ins.borrowFee);
    } else if ins.Redeem? {
      RedeemStepControl(s, env, ins.amount, ins.userLiquidity, ins.userLp);
    }
  }

  /** The invariant of every instruction, with the instructions still to come in view. */
  lemma StepKeepsSafe(s: State, env: Env, ins: Instruction, rest: seq<Instruction>)
    requires Safe(s, [ins] + rest) && Step(s, env, ins, rest).Ok?
    ensures Safe(Step(s, env, ins, rest).value, rest)
  {
    if Idle(s) {
      IdleStepSafe(s, env, ins, rest);
    } else if OnPlan(s, Depositing, [ins] + rest) {
      PlanStepSafe(s, env, Depositing, ins, rest);
    } else {
      PlanStepSafe(s, env, Redeeming, ins, rest);
    }
  }

  /** The state after the first i instructions of a transaction. */
  function After(s: State, env: Env, tx: seq<Instruction>, i: nat): Result<State>
    requires i <= |tx|
  {
    if i == 0 then Ok(s)
    else
      var t :- After(s, env, tx, i - 1);
      Step(t, env, tx[i - 1], tx[i..])
  }

  /** Every prefix of a run that succeeds is accepted, and the run goes on from there. */
  lemma {:induction false} RunGoesOn(s: State, env: Env, tx: seq<Instruction>, i: nat)
    requires i <= |tx| && Run(s, env, tx).Ok?
    ensures After(s, env, tx, i).Ok?
    ensures Run(After(s, env, tx, i).value, env, tx[i..]) == Run(s, env, tx)
  {
    if i == 0 {
      assert tx[0..] == tx;
    } else {
      RunGoesOn(s, env, tx, i - 1);
      assert tx[i - 1..][0] == tx[i - 1] && tx[i - 1..][1..] == tx[i..];
    }
  }

  /** A transaction is its steps one after the other, each with what follows it in view, and
      fails with the error of the first that fails. */
  lemma {:induction false} RunIsSteps(s: State, env: Env, tx: seq<Instruction>, i: nat)
    requires i <= |tx|
    ensures After(s, env, tx, i).Ok? ==> Run(After(s, env, tx, i).value, env, tx[i..]) == Run(s, env, tx)
    ensures After(s, env, tx, i).Err? ==> Run(s, env, tx) == Err(After(s, env, tx, i).error)
    ensures i == |tx| ==> Run(s, env, tx) == After(s, env, tx, i)
  {
    if i == 0 {
      assert tx[0..] == tx;
    } else {
      RunIsSteps(s, env, tx, i - 1);
      assert tx[i - 1..][0] == tx[i - 1] && tx[i - 1..][1..] == tx[i..];
    }
  }

  lemma {:induction false} AfterKeepsSafe(s: State, env: Env, tx: seq<Instruction>, i: nat)
    requires i <= |tx| && Safe(s, tx) && After(s, env, tx, i).Ok?
    ensures Safe(After(s, env, tx, i).value, tx[i..])
  {
    if i == 0 {
      assert tx[0..] == tx;
    } else {
      AfterKeepsSafe(s, env, tx, i - 1);
      assert tx[i - 1..] == [tx[i - 1]] + tx[i..];
      StepKeepsSafe(After(s, env, tx, i - 1).value, env, tx[i - 1], tx[i..]);
    }
  }

  /** Mutual exclusion, in the middle of any transaction that starts idle, even one that
      fails later: the two verify flags are never both set. */
  lemma FlagsExclude(s: State, env: Env, tx: seq<Instruction>, i: nat)
    requires i <= |tx| && 1 <= s.portIterate && Idle(s) && After(s, env, tx, i).Ok?
    ensures var t := After(s, env, tx, i).value;
      !(t.port.depositVerified == 1 && t.port.redeemVerified == 1)
  {
    AfterKeepsSafe(s, env, tx, i);
  }

  /** A redeem run that has begun and not paid has something to unroll, at every point of
      any transaction that starts idle. */
  lemma UnpaidRunsUnroll(s: State, env: Env, tx: seq<Instruction>, i: nat)
    requires i <= |tx| && 1 <= s.portIterate && Idle(s) && After(s, env, tx, i).Ok?
    ensures var t := After(s, env, tx, i).value;
      t.port.redeemVerified == 1 && Unpaid(t) ==> t.port.amountToUnroll > 0
  {
    AfterKeepsSafe(s, env, tx, i);
  }

  lemma {:induction false} RunKeepsSafe(s: State, env: Env, tx: seq<Instruction>)
    requires Safe(s, tx) && Run(s, env, tx).Ok?
    ensures Safe(Run(s, env, tx).value, [])
    decreases |tx|
  {
    if tx == [] {
    } else {
      assert tx == [tx[0]] + tx[1..];
      StepKeepsSafe(s, env, tx[0], tx[1..]);
      RunKeepsSafe(Step(s, env, tx[0], tx[1..]).value, env, tx[1..]);
    }
  }

  /** Atomicity: a successful transaction that starts idle ends idle. */
  lemma TransactionEndsIdle(s: State, env: Env, tx: seq<Instruction>)
    requires 1 <= s.portIterate && Idle(s) && Run(s, env, tx).Ok?
    ensures Idle(Run(s, env, tx).value)
  {
    RunKeepsSafe(s, env, tx);
  }

  /** The program's own assertion: the last turn of a deposit borrows nothing, so the
      wallet it just deposited is empty when the close looks at it. Nor does anything but the
      guards speak of a stale sale. */
  lemma TurnNeverPanics(s: State, env: Env, userLp: Key, fee: nat)
    ensures DepositTurn(s, env, userLp, fee) !in {Err(Panicked), Err(PortNotSell)}
  {
  }

  lemma {:induction false} ScanNeverPanics(kind: Kind, rest: seq<Instruction>, n: nat, count: nat, approved: Key)
    ensures Scan(kind, rest, n, count, approved) != Err(Panicked)
  {
    if rest == [] {
    } else if rest[0].Foreign? {
      ScanNeverPanics(kind, rest[1..], n, count, approved);
    } else {
      var accepted := Accept(kind, rest[0], count, approved);
      if accepted.Ok? {
        ScanNeverPanics(kind, rest[1..], n, count + 1, accepted.value);
      }
    }
  }

  lemma DepositNeverPanics(s: State, env: Env, amount: u64, user: Key, userLp: Key, fee: nat)
    ensures DepositStep(s, env, amount, user, userLp, fee) != Err(Panicked)
    ensures DepositStep(s, env, amount, user, userLp, fee) == Err(PortNotSell) ==>
      DepositGuard(s, env, amount, user) == Fail(PortNotSell)
  {
    var started := if s.port.leverage == 0 then DepositOpen(s, env, amount, user) else Ok(s);
    if started.Ok? {
      TurnNeverPanics(started.value, env, userLp, fee);
    }
  }

  lemma {:induction false} AmountsNeverPanic(rate: Rate, percent: nat, u: nat, m: nat)
    ensures AmountsAfter(rate, percent, u, m) !in {Err(Panicked), Err(PortNotSell)}
  {
    if m == 0 {
    } else {
      AmountsNeverPanic(rate, percent, u, m - 1);
    }
  }

  lemma UnrollNeverPanics(s: State, env: Env)
    ensures RedeemUnroll(s, env) !in {Err(Panicked), Err(PortNotSell)}
  {
    if s.reservePercentage <= env.ltv && s.port.leverage <= s.portIterate {
      AmountsNeverPanic(env.rate, env.ltv - s.reservePercentage, s.port.amountToUnroll,
                        s.portIterate - s.port.leverage);
    }
  }

  lemma OpenNeverPanics(s: State, env: Env, amount: u64, userLp: Key)
    ensures RedeemOpen(s, env, amount, userLp) !in {Err(Panicked), Err(PortNotSell)}
  {
  }

  lemma PayNeverPanics(s: State, user: Key)
    ensures RedeemPay(s, user) !in {Err(Panicked), Err(PortNotSell)}
  {
  }

  lemma WorkNeverPanics(s: State, env: Env, amount: u64, user: Key, userLp: Key)
    ensures RedeemWork(s, env, amount, user, userLp) !in {Err(Panicked), Err(PortNotSell)}
  {
    OpenNeverPanics(s, env, amount, userLp);
    var started := if s.port.leverage == 0 then RedeemOpen(s, env, amount, userLp) else Ok(s);
    if started.Ok? {
      UnrollNeverPanics(started.value, env);
      var unrolled := RedeemUnroll(started.value, env);
      if unrolled.Ok? {
        PayNeverPanics(unrolled.value, user);
      }
    }
  }

  lemma RedeemNeverPanics(s: State, env: Env, amount: u64, user: Key, userLp: Key)
    ensures RedeemStep(s, env, amount, user, userLp) != Err(Panicked)
    ensures RedeemStep(s, env, amount, user, userLp) == Err(PortNotSell) ==>
      RedeemGuard(s, env, amount, userLp) == Fail(PortNotSell)
  {
    WorkNeverPanics(s, env, amount, user, userLp);
  }

  lemma StepNeverPanics(s: State, env: Env, ins: Instruction, rest: seq<Instruction>)
    ensures Step(s, env, ins, rest) != Err(Panicked)
  {
    match ins
    case VerifyDeposit => ScanNeverPanics(Depositing, rest, s.portIterate, 0, Default);
    case VerifyRedeem => ScanNeverPanics(Redeeming, rest, s.portIterate, 0, Default);
    case Deposit(amount, user, userLp, fee) => DepositNeverPanics(s, env, amount, user, userLp, fee);
    case Redeem(amount, user, userLp) => RedeemNeverPanics(s, env, amount, user, userLp);
    case _ =>
  }

  /** From no state whatever does any transaction run into that assertion. */
  lemma {:induction false} NeverPanics(s: State, env: Env, tx: seq<Instruction>)
    ensures Run(s, env, tx) != Err(Panicked)
    decreases |tx|
  {
    if tx == [] {
    } else {
      var next := Step(s, env, tx[0], tx[1..]);
      StepNeverPanics(s, env, tx[0], tx[1..]);
      if next.Ok? {
        NeverPanics(next.value, env, tx[1..]);
      }
    }
  }

  /** The rest of the pool's bookkeeping, kept by every instruction on its own. */
  predicate Consistent(s: State) {
    && s.lpAmount == s.accounts.lpSupply
    && s.bump <= 255 && s.withdrawFeeBips <= 255 && 1 <= s.portIterate < 10 && s.liquidityCap < U64_LIMIT
    && (s.port.leverage == 0 ==>
          && s.port.initPortLiquidity == 0 && s.port.userLiquidityPercentage == 0
          && s.port.amountToUnroll == 0 && s.port.redeemAmount == 0)
    && (s.port.depositVerified == 0 && s.port.redeemVerified == 0 ==> s.port.approvedWallet == Default)
  }

  lemma DepositKeepsConsistent(s: State, env: Env, amount: u64, user: Key, userLp: Key, fee: nat)
    requires Consistent(s) && DepositStep(s, env, amount, user, userLp, fee).Ok?
    ensures Consistent(DepositStep(s, env, amount, user, userLp, fee).value)
  {
  }

  lemma RedeemKeepsConsistent(s: State, env: Env, amount: u64, user: Key, userLp: Key)
    requires Consistent(s) && RedeemStep(s, env, amount, user, userLp).Ok?
    ensures Consistent(RedeemStep(s, env, amount, user, userLp).value)
  {
    RedeemStepControl(s, env, amount, user, userLp);
    if s.port.isRedeemed != 1 {
      RedeemWorkKeeps(s, env, amount, user, userLp);
    }
  }

  lemma StepKeepsConsistent(s: State, env: Env, ins: Instruction, rest: seq<Instruction>)
    requires Consistent(s) && Step(s, env, ins, rest).Ok?
    ensures Consistent(Step(s, env, ins, rest).value)
  {
    match ins
    case Deposit(amount, user, userLp, fee) => DepositKeepsConsistent(s, env, amount, user, userLp, fee);
    case Redeem(amount, user, userLp) => RedeemKeepsConsistent(s, env, amount, user, userLp);
    case _ =>
  }

  lemma {:induction false} RunKeepsConsistent(s: State, env: Env, tx: seq<Instruction>)
    requires Consistent(s) && Run(s, env, tx).Ok?
    ensures Consistent(Run(s, env, tx).value)
    decreases |tx|
  {
    if tx == [] {
    } else {
      StepKeepsConsistent(s, env, tx[0], tx[1..]);
      RunKeepsConsistent(Step(s, env, tx[0], tx[1..]).value, env, tx[1..]);
    }
  }

  datatype Transaction = Transaction(env: Env, instructions: seq<Instruction>)

  /** A history: each transaction commits or leaves no trace. */
  function History(s: State, txs: seq<Transaction>): State {
    if txs == [] then s
    else
      var last := txs[|txs| - 1];
      var before := History(s, txs[..|txs| - 1]);
      match Run(before, last.env, last.instructions)
      case Ok(t) => t
      case Err(_) => before
  }

  lemma {:induction false} HistoryKeeps(s: State, txs: seq<Transaction>)
    requires Consistent(s) && Idle(s)
    ensures Consistent(History(s, txs)) && Idle(History(s, txs))
  {
    if txs == [] {
    } else {
      HistoryKeeps(s, txs[..|txs| - 1]);
      var before := History(s, txs[..|txs| - 1]);
      var last := txs[|txs| - 1];
      if Run(before, last.env, last.instructions).Ok? {
        RunKeepsConsistent(before, last.env, last.instructions);
        TransactionEndsIdle(before, last.env, last.instructions);
      }
    }
  }

  /** Between transactions every pool ever created is idle with nothing left over from a
      run, its LP record matches the mint, and it passes its own validity check if and only
      if its reserve percentage is below 10 and its minimum deposit is above 10. */
  lemma CreatedPoolsStayIdle(bump: u8, params: InitParams, users: map<Key, nat>, txs: seq<Transaction>)
    requires CreatePool(bump, params, users).Ok?
    ensures var s := History(CreatePool(bump, params, users).value, txs);
      && s.port == s.port.Reset()
      && s.lpAmount == s.accounts.lpSupply
      && (ValidPool(s).Pass? <==> s.reservePercentage < 10 && s.minDeposit > 10)
  {
    HistoryKeeps(CreatePool(bump, params, users).value, txs);
  }

  /** The setters and the constructor do not check what the validity check demands. */
  lemma CreationValidIff(bump: u8, params: InitParams, users: map<Key, nat>)
    requires CreatePool(bump, params, users).Ok?
    ensures ValidPool(CreatePool(bump, params, users).value).Pass? <==> params.portReservePercentage < 10
  {
  }

  lemma MinDepositKeepsValidIff(s: State, minDeposit: u64)
    requires ChangeMinDepositStep(s, minDeposit).Ok?
    ensures ValidPool(ChangeMinDepositStep(s, minDeposit).value).Pass? <==> minDeposit > 10
  {
  }

  lemma FrozenStep(s: State, env: Env, ins: Instruction, rest: seq<Instruction>)
    requires !ConfigValid(s) && Step(s, env, ins, rest).Ok?
    ensures var t := Step(s, env, ins, rest).value;
      || (t == s && (ins == Foreign || ins == OtherPole(false)))
      || ((ins.VerifyDeposit? || ins.VerifyRedeem?) && t == s.(port := t.port))
  {
    match ins
    case Deposit(amount, user, userLp, fee) => DepositStepControl(s, env, amount, user, userLp, fee);
    case Redeem(amount, user, userLp) => RedeemStepControl(s, env, amount, user, userLp);
    case _ =>
  }

  lemma VerifyNeedsSteps(s: State, kind: Kind, rest: seq<Instruction>)
    requires 1 <= s.portIterate && VerifyStep(s, kind, rest).Ok?
    ensures exists ins :: ins in PoleOnly(rest) && Matches(kind, ins)
  {
    ScanExact(kind, rest, s.portIterate, 0, Default);
    assert PoleOnly(rest)[0] in PoleOnly(rest);
  }

  /** A pool whose configuration is not valid is frozen: no transaction that succeeds
      changes anything, so nothing can repair it. */
  lemma {:induction false} InvalidConfigFreezes(s: State, env: Env, tx: seq<Instruction>)
    requires 1 <= s.portIterate && !ConfigValid(s) && Run(s, env, tx).Ok?
    ensures Run(s, env, tx).value == s
    ensures forall ins | ins in PoleOnly(tx) :: ins == OtherPole(false)
    decreases |tx|
  {
    if tx == [] {
    } else {
      FrozenStep(s, env, tx[0], tx[1..]);
      InvalidConfigFreezes(Step(s, env, tx[0], tx[1..]).value, env, tx[1..]);
      if tx[0].VerifyDeposit? {
        VerifyNeedsSteps(s, Depositing, tx[1..]);
      } else if tx[0].VerifyRedeem? {
        VerifyNeedsSteps(s, Redeeming, tx[1..]);
      }
    }
  }

  lemma {:induction false} InvalidConfigFreezesForever(s: State, txs: seq<Transaction>)
    requires 1 <= s.portIterate && !ConfigValid(s)
    ensures History(s, txs) == s
  {
    if txs == [] {
    } else {
      InvalidConfigFreezesForever(s, txs[..|txs| - 1]);
      var last := txs[|txs| - 1];
      if Run(s, last.env, last.instructions).Ok? {
        InvalidConfigFreezes(s, last.env, last.instructions);
      }
    }
  }
}
