/** From the look-ahead to the run: in a transaction that succeeds, what follows an accepted
    verify instruction is exactly one complete run of the kind it approved, so the theorems
    about runs are theorems about transactions. */
module Approved {
  import opened Wad
  import opened Ledger
  import opened Plan
  import opened Pool
  import Atomicity
  import DepositRun
  import RedeemRun

  /** The look-ahead does not see other programs' instructions. */
  lemma {:induction false} ScanSkipsForeign(kind: Kind, rest: seq<Instruction>, n: nat, count: nat, approved: Key)
    requires count < n
    ensures Scan(kind, rest, n, count, approved) == Scan(kind, PoleOnly(rest), n, count, approved)
  {
    if rest == [] {
    } else {
      if rest[0].Foreign? {
        ScanSkipsForeign(kind, rest[1..], n, count, approved);
      } else {
        PoleFirst(rest);
        ScanFirst(kind, rest, n, count, approved);
        ScanFirst(kind, PoleOnly(rest), n, count, approved);
        var accepted := Accept(kind, rest[0], count, approved);
        if count + 1 < n && accepted.Ok? {
          ScanSkipsForeign(kind, rest[1..], n, count + 1, accepted.value);
        }
      }
    }
  }

  lemma ScanFirst(kind: Kind, rest: seq<Instruction>, n: nat, count: nat, approved: Key)
    requires rest != [] && !rest[0].Foreign?
    ensures var accepted := Accept(kind, rest[0], count, approved);
      Scan(kind, rest, n, count, approved)
      == if accepted.Err? || count + 1 == n then accepted else Scan(kind, rest[1..], n, count + 1, accepted.value)
  {
  }

  lemma PoleFirst(tx: seq<Instruction>)
    requires tx != [] && !tx[0].Foreign?
    ensures PoleOnly(tx) != [] && PoleOnly(tx)[0] == tx[0] && PoleOnly(tx)[1..] == PoleOnly(tx[1..])
  {
  }

  /** Interleaving other programs' instructions changes nothing. */
  lemma {:induction false} RunSkipsForeign(s: State, env: Env, tx: seq<Instruction>)
    requires 1 <= s.portIterate
    ensures Run(s, env, tx) == Run(s, env, PoleOnly(tx))
    decreases |tx|
  {
    if tx == [] {
    } else {
      var rest := tx[1..];
      if tx[0].Foreign? {
        RunSkipsForeign(s, env, rest);
      } else {
        PoleFirst(tx);
        ScanSkipsForeign(Depositing, rest, s.portIterate, 0, Default);
        ScanSkipsForeign(Redeeming, rest, s.portIterate, 0, Default);
        assert Step(s, env, tx[0], rest) == Step(s, env, tx[0], PoleOnly(rest));
        if Step(s, env, tx[0], rest).Ok? {
          Atomicity.StepKeepsIterate(s, env, tx[0], rest);
          RunSkipsForeign(Step(s, env, tx[0], rest).value, env, rest);
        }
      }
    }
  }

  function Then(r: Result<State>, env: Env, tx: seq<Instruction>): Result<State> {
    var s :- r;
    Run(s, env, tx)
  }

  /** Instructions that do not look ahead can be run on their own. */
  lemma {:induction false} RunSplits(s: State, env: Env, kind: Kind, a: seq<Instruction>, b: seq<Instruction>)
    requires forall ins | ins in a :: Matches(kind, ins)
    ensures Run(s, env, a + b) == Then(Run(s, env, a), env, b)
    decreases |a|
  {
    if a == [] {
      assert a + b == b;
    } else {
      assert (a + b)[0] == a[0] && (a + b)[1..] == a[1..] + b;
      assert Matches(kind, a[0]);
      assert Step(s, env, a[0], a[1..] + b) == Step(s, env, a[0], a[1..]);
      if Step(s, env, a[0], a[1..]).Ok? {
        RunSplits(Step(s, env, a[0], a[1..]).value, env, kind, a[1..], b);
      }
    }
  }

  /** The guards of an accepted step: the approved wallet, a valid configuration, an LP
      record that matches the mint, its own flag and not the other, and an amount exactly
      when it is the first of its run. */
  lemma AcceptedStep(s: State, env: Env, kind: Kind, ins: Instruction, rest: seq<Instruction>)
    requires Matches(kind, ins) && Step(s, env, ins, rest).Ok?
    ensures Wallet(kind, ins) == s.port.approvedWallet && ConfigValid(s) && s.lpAmount == s.accounts.lpSupply
    ensures 0 < Amount(kind, ins) <==> s.port.leverage == 0
    ensures match kind
            case Depositing => s.port.depositVerified == 1 && s.port.redeemVerified == 0
            case Redeeming => s.port.redeemVerified == 1 && s.port.depositVerified == 0
    ensures var t := Step(s, env, ins, rest).value;
      && t.portIterate == s.portIterate
      && (s.port.leverage + 1 != s.portIterate ==>
            t.port.leverage == s.port.leverage + 1 && t.port.approvedWallet == s.port.approvedWallet)
  {
    match ins
    case Deposit(amount, user, userLp, fee) => Atomicity.DepositStepControl(s, env, amount, user, userLp, fee);
    case Redeem(amount, user, userLp) => Atomicity.RedeemStepControl(s, env, amount, user, userLp);
  }

  /** Accepted steps all come from the approved wallet, default keys or not. */
  lemma {:induction false} AcceptedWallets(s: State, env: Env, kind: Kind, steps: seq<Instruction>)
    requires forall ins | ins in steps :: Matches(kind, ins)
    requires s.port.leverage + |steps| == s.portIterate && Run(s, env, steps).Ok?
    ensures forall i | 0 <= i < |steps| :: Wallet(kind, steps[i]) == s.port.approvedWallet
    decreases |steps|
  {
    if steps == [] {
    } else {
      AcceptedStep(s, env, kind, steps[0], steps[1..]);
      if 1 < |steps| {
        AcceptedWallets(Step(s, env, steps[0], steps[1..]).value, env, kind, steps[1..]);
        assert forall i | 1 <= i < |steps| :: steps[i] == steps[1..][i - 1];
      }
    }
  }

  /** An accepted look-ahead sets its own flag and approves the wallet of the last step it
      counted, and touches nothing else. */
  lemma VerifyApproves(s: State, kind: Kind, rest: seq<Instruction>)
    requires 1 <= s.portIterate && VerifyStep(s, kind, rest).Ok?
    ensures Uniform(kind, PoleOnly(rest), s.portIterate, 0)
    ensures var approved := Wallet(kind, PoleOnly(rest)[s.portIterate - 1]);
      VerifyStep(s, kind, rest).value
      == s.(port := match kind
                    case Depositing => s.port.(depositVerified := 1, approvedWallet := approved)
                    case Redeeming => s.port.(redeemVerified := 1, approvedWallet := approved))
  {
    ScanExact(kind, rest, s.portIterate, 0, Default);
  }

  lemma VerifiedIsReady(s: State, kind: Kind, rest: seq<Instruction>)
    requires Atomicity.Consistent(s) && Atomicity.Idle(s) && ConfigValid(s) && VerifyStep(s, kind, rest).Ok?
    ensures var v := VerifyStep(s, kind, rest).value;
      match kind case Depositing => DepositRun.Ready(v) case Redeeming => RedeemRun.Ready(v)
  {
  }

  lemma UniformSteps(v: State, kind: Kind, p: seq<Instruction>)
    requires Uniform(kind, p, v.portIterate, 0)
    requires forall i | 0 <= i < v.portIterate :: Wallet(kind, p[i]) == v.port.approvedWallet
    ensures match kind
            case Depositing => DepositRun.Steps(v, p[..v.portIterate], 0)
            case Redeeming => RedeemRun.Steps(v, p[..v.portIterate], 0)
  {
    forall i | 0 <= i < v.portIterate
      ensures Matches(kind, p[i]) && (0 < Amount(kind, p[i]) <==> i == 0)
    {
      assert Matches(kind, p[i]) && (0 < Amount(kind, p[i]) <==> 0 + i == 0);
    }
  }

  lemma RunOfVerify(s: State, env: Env, kind: Kind, verify: Instruction, p: seq<Instruction>)
    requires verify == match kind case Depositing => VerifyDeposit case Redeeming => VerifyRedeem
    ensures Run(s, env, [verify] + p) == Then(VerifyStep(s, kind, p), env, p)
  {
    assert ([verify] + p)[0] == verify && ([verify] + p)[1..] == p;
  }

  /** A whole approved transaction: started idle and clean, a verify instruction that is
      followed by p succeeds only as a complete run of its kind, by the approved wallet,
      whose first step alone has an amount; whatever is left of p comes after that run. */
  lemma ApprovedRunIsComplete(s: State, env: Env, kind: Kind, verify: Instruction, p: seq<Instruction>)
    requires Atomicity.Consistent(s) && Atomicity.Idle(s)
    requires verify == match kind case Depositing => VerifyDeposit case Redeeming => VerifyRedeem
    requires p == PoleOnly(p) && Run(s, env, [verify] + p).Ok?
    ensures s.portIterate <= |p| && VerifyStep(s, kind, p).Ok?
    ensures var v := VerifyStep(s, kind, p).value;
      var steps := p[..s.portIterate];
      && Run(s, env, [verify] + p) == Then(Run(v, env, steps), env, p[s.portIterate..])
      && Run(v, env, steps).Ok?
      && (match kind
          case Depositing => DepositRun.Ready(v) && DepositRun.Steps(v, steps, 0)
          case Redeeming => RedeemRun.Ready(v) && RedeemRun.Steps(v, steps, 0))
  {
    RunOfVerify(s, env, kind, verify, p);
    ScanExact(kind, p, s.portIterate, 0, Default);
    var v := VerifyStep(s, kind, p).value;
    PlanIsRun(v, env, kind, p);
    VerifiedIsReady(s, kind, p);
  }

  lemma PlanIsRun(v: State, env: Env, kind: Kind, p: seq<Instruction>)
    requires 1 <= v.portIterate && v.port.leverage == 0 && Uniform(kind, p, v.portIterate, 0)
    requires Run(v, env, p).Ok?
    ensures var steps := p[..v.portIterate];
      && Run(v, env, p) == Then(Run(v, env, steps), env, p[v.portIterate..])
      && Run(v, env, steps).Ok?
      && (match kind
          case Depositing => DepositRun.Steps(v, steps, 0)
          case Redeeming => RedeemRun.Steps(v, steps, 0))
    ensures ConfigValid(v)
  {
    var steps := p[..v.portIterate];
    assert p == steps + p[v.portIterate..];
    assert forall i | 0 <= i < |steps| :: steps[i] == p[i] && Matches(kind, p[i]);
    RunSplits(v, env, kind, steps, p[v.portIterate..]);
    AcceptedWallets(v, env, kind, steps);
    AcceptedStep(v, env, kind, steps[0], steps[1..]);
    UniformSteps(v, kind, p);
  }

  /* The other direction: when an approved transaction succeeds. */

  /** A look-ahead is accepted exactly when the next n instructions of this program are
      approvable; it never depends on the pool beyond n. */
  lemma VerifyIff(s: State, kind: Kind, rest: seq<Instruction>)
    requires 1 <= s.portIterate
    ensures VerifyStep(s, kind, rest).Ok? <==> Approvable(kind, PoleOnly(rest), s.portIterate, 0, Default)
    ensures VerifyStep(s, kind, rest).Err? ==>
      VerifyStep(s, kind, rest) == Err(Scan(kind, rest, s.portIterate, 0, Default).error)
  {
    ScanExact(kind, rest, s.portIterate, 0, Default);
  }

  /** The pool once a look-ahead has approved a wallet. */
  function Approving(s: State, kind: Kind, wallet: Key): State {
    s.(port := match kind
               case Depositing => s.port.(depositVerified := 1, approvedWallet := wallet)
               case Redeeming => s.port.(redeemVerified := 1, approvedWallet := wallet))
  }

  /** n steps of one kind by one wallet, only the first with an amount. */
  predicate OneRun(kind: Kind, steps: seq<Instruction>, n: nat) {
    && 1 <= n == |steps| && Uniform(kind, steps, n, 0)
    && forall i | 0 <= i < n :: Wallet(kind, steps[i]) == Wallet(kind, steps[0])
  }

  lemma OneRunIsApproved(s: State, kind: Kind, steps: seq<Instruction>)
    requires OneRun(kind, steps, s.portIterate) && PoleOnly(steps) == steps
    ensures VerifyStep(s, kind, steps) == Ok(Approving(s, kind, Wallet(kind, steps[0])))
  {
    assert Chained(kind, steps, s.portIterate, Default);
    VerifyIff(s, kind, steps);
    VerifyApproves(s, kind, steps);
  }

  /** A verified run that succeeds is one run. */
  lemma AcceptedIsOneRun(s: State, env: Env, kind: Kind, steps: seq<Instruction>)
    requires Atomicity.Idle(s) && 1 <= s.portIterate == |steps| && PoleOnly(steps) == steps
    requires VerifyStep(s, kind, steps).Ok? && Run(VerifyStep(s, kind, steps).value, env, steps).Ok?
    ensures OneRun(kind, steps, s.portIterate)
  {
    VerifyApproves(s, kind, steps);
    assert forall ins | ins in steps :: Matches(kind, ins);
    AcceptedWallets(VerifyStep(s, kind, steps).value, env, kind, steps);
  }

  /** Verify and what follows it, with other programs' instructions in between, runs as the
      n steps do from the pool with their wallet approved, if they are one run; if not, it
      fails. */
  lemma VerifiedRunIs(s: State, env: Env, kind: Kind, verify: Instruction, tx: seq<Instruction>)
    requires Atomicity.Idle(s) && 1 <= s.portIterate == |PoleOnly(tx)|
    requires verify == match kind case Depositing => VerifyDeposit case Redeeming => VerifyRedeem
    ensures var steps := PoleOnly(tx);
      if OneRun(kind, steps, s.portIterate) then
        Run(s, env, [verify] + tx) == Run(Approving(s, kind, Wallet(kind, steps[0])), env, steps)
      else Run(s, env, [verify] + tx).Err?
  {
    var steps := PoleOnly(tx);
    PoleTwice(tx);
    RunSkipsForeign(s, env, [verify] + tx);
    assert PoleOnly([verify] + tx) == [verify] + steps by {
      assert ([verify] + tx)[1..] == tx;
    }
    RunOfVerify(s, env, kind, verify, steps);
    if OneRun(kind, steps, s.portIterate) {
      OneRunIsApproved(s, kind, steps);
    } else if VerifyStep(s, kind, steps).Ok? && Run(VerifyStep(s, kind, steps).value, env, steps).Ok? {
      AcceptedIsOneRun(s, env, kind, steps);
    }
  }

  lemma {:induction false} PoleTwice(tx: seq<Instruction>)
    ensures PoleOnly(PoleOnly(tx)) == PoleOnly(tx)
  {
    if tx == [] {
    } else {
      PoleTwice(tx[1..]);
      if !tx[0].Foreign? {
        assert PoleOnly(tx)[1..] == PoleOnly(tx[1..]);
      }
    }
  }

  /** A whole deposit transaction, exactly: from a clean, valid pool it succeeds if and only
      if its instructions are one run and the run meets the conditions of its own theorem. */
  lemma DepositTransactionIff(s: State, env: Env, tx: seq<Instruction>)
    requires Atomicity.Consistent(s) && Atomicity.Idle(s) && ConfigValid(s) && |PoleOnly(tx)| == s.portIterate
    ensures var steps := PoleOnly(tx);
      Run(s, env, [VerifyDeposit] + tx).Ok? <==>
        && OneRun(Depositing, steps, s.portIterate)
        && (var v := Approving(s, Depositing, steps[0].userLiquidity);
            && DepositRun.Steps(v, steps, 0) && DepositRun.SaleAllows(v, env) && DepositRun.Opens(v, env, steps[0])
            && DepositRun.Completes(DepositRun.Started(v, env, steps[0]), env, steps))
  {
    var steps := PoleOnly(tx);
    VerifiedRunIs(s, env, Depositing, VerifyDeposit, tx);
    if OneRun(Depositing, steps, s.portIterate) {
      var v := Approving(s, Depositing, steps[0].userLiquidity);
      UniformSteps(v, Depositing, steps);
      assert steps[..s.portIterate] == steps;
      DepositRun.DepositRunIff(v, env, steps);
    }
  }

  /** A whole redeem transaction, exactly. */
  lemma RedeemTransactionIff(s: State, env: Env, tx: seq<Instruction>)
    requires Atomicity.Consistent(s) && Atomicity.Idle(s) && ConfigValid(s) && |PoleOnly(tx)| == s.portIterate
    ensures var steps := PoleOnly(tx);
      Run(s, env, [VerifyRedeem] + tx).Ok? <==>
        && OneRun(Redeeming, steps, s.portIterate)
        && (var v := Approving(s, Redeeming, steps[0].userLp);
            && RedeemRun.Steps(v, steps, 0) && RedeemRun.SaleAllows(v, env) && RedeemRun.Opens(v, env, steps[0])
            && RedeemRun.Completes(RedeemRun.Started(v, env, steps[0]), env))
  {
    var steps := PoleOnly(tx);
    VerifiedRunIs(s, env, Redeeming, VerifyRedeem, tx);
    if OneRun(Redeeming, steps, s.portIterate) {
      var v := Approving(s, Redeeming, steps[0].userLp);
      UniformSteps(v, Redeeming, steps);
      assert steps[..s.portIterate] == steps;
      RedeemRun.RedeemRunIff(v, env, steps);
    }
  }
}
