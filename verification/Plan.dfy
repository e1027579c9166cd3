/** The instructions of a transaction and the look-ahead that approves a run of them. */
module Plan {
  import opened Wad
  import opened Ledger

  type u8 = x: nat | x < 256

  /** A top-level instruction. `Foreign` belongs to another program and does not touch the
      pool. `OtherPole` is any other instruction of this program (`guarded` when it checks
      the pool's state first). A borrow fee and the proceeds of a sale are decided by other
      programs; they are recorded with the instruction they belong to. */
  datatype Instruction =
    | Foreign
    | VerifyDeposit
    | VerifyRedeem
    | Deposit(amount: u64, userLiquidity: Key, userLp: Key, borrowFee: nat)
    | Redeem(amount: u64, userLiquidity: Key, userLp: Key)
    | ClaimAndSell(proceeds: nat)
    | ChangeLiquidityCap(cap: u64)
    | ChangeWithdrawFee(bips: u8)
    | ChangeMinDeposit(minDeposit: u64)
    | OtherPole(guarded: bool)

  datatype Kind = Depositing | Redeeming

  predicate Matches(kind: Kind, ins: Instruction) {
    match kind
    case Depositing => ins.Deposit?
    case Redeeming => ins.Redeem?
  }

  /** The account whose key the look-ahead approves: a deposit's liquidity wallet, a
      redemption's LP wallet. */
  function Wallet(kind: Kind, ins: Instruction): Key
    requires Matches(kind, ins)
  {
    match kind
    case Depositing => ins.userLiquidity
    case Redeeming => ins.userLp
  }

  function Amount(kind: Kind, ins: Instruction): nat
    requires Matches(kind, ins)
  {
    match kind
    case Depositing => ins.amount
    case Redeeming => ins.amount
  }

  function AmountError(kind: Kind): Error {
    if kind.Depositing? then DepositAmountInvalid else RedeemAmountInvalid
  }

  function WalletError(kind: Kind): Error {
    if kind.Depositing? then WrongWallet else InvalidTransaction
  }

  /** One instruction of this program seen by the look-ahead: the approved wallet after it. */
  function Accept(kind: Kind, ins: Instruction, count: nat, approved: Key): Result<Key> {
    if !Matches(kind, ins) then Err(InvalidTransaction)
    else if (0 < Amount(kind, ins)) != (count == 0) then Err(AmountError(kind))
    else if approved == Default || approved == Wallet(kind, ins) then Ok(Wallet(kind, ins))
    else Err(WalletError(kind))
  }

  /** The look-ahead over the instructions that follow, as a function. */
  function Scan(kind: Kind, rest: seq<Instruction>, n: nat, count: nat, approved: Key): Result<Key> {
    if rest == [] then
      if count == n then Ok(approved) else Err(InvalidTransaction)
    else if rest[0].Foreign? then
      if count == n then Ok(approved) else Scan(kind, rest[1..], n, count, approved)
    else
      var wallet :- Accept(kind, rest[0], count, approved);
      if count + 1 == n then Ok(wallet) else Scan(kind, rest[1..], n, count + 1, wallet)
  }

  /** The loop of `verify_deposit` and of `verify_redeem`. */
  method ScanPlan(kind: Kind, rest: seq<Instruction>, n: nat) returns (r: Result<Key>)
    ensures r == Scan(kind, rest, n, 0, Default)
  {
    var count, approvedWallet, i := 0, Default, 1;
    while i <= |rest|
      invariant 1 <= i <= |rest| + 1
      invariant Scan(kind, rest, n, 0, Default) == Scan(kind, rest[i - 1..], n, count, approvedWallet)
    {
      var ins := rest[i - 1];
      assert rest[i - 1..][1..] == rest[i..];
      if !ins.Foreign? {
        if !Matches(kind, ins) {
          return Err(InvalidTransaction);
        }
        if (Amount(kind, ins) > 0) != (count == 0) {
          return Err(AmountError(kind));
        }
        var wallet := Wallet(kind, ins);
        if approvedWallet == Default {
          approvedWallet := wallet;
        } else if approvedWallet != wallet {
          return Err(WalletError(kind));
        }
        count := count + 1;
      }
      if count == n {
        return Ok(approvedWallet);
      }
      i := i + 1;
    }
    if count != n {
      return Err(InvalidTransaction);
    }
    return Ok(approvedWallet);
  }

  /** The instructions of this program, in order. */
  function PoleOnly(tx: seq<Instruction>): (p: seq<Instruction>)
    ensures forall ins | ins in p :: ins in tx && !ins.Foreign?
  {
    if tx == [] then []
    else if tx[0].Foreign? then PoleOnly(tx[1..])
    else [tx[0]] + PoleOnly(tx[1..])
  }

  /** The next n instructions of this program are all of one kind and only the first
      carries an amount. */
  predicate Uniform(kind: Kind, p: seq<Instruction>, n: nat, count: nat) {
    && n <= |p|
    && forall i | 0 <= i < n :: Matches(kind, p[i]) && (0 < Amount(kind, p[i]) <==> count + i == 0)
  }

  /** The wallet that instruction i is compared with. */
  function Preceding(kind: Kind, p: seq<Instruction>, i: nat, approved: Key): Key
    requires i <= |p| && (0 < i ==> Matches(kind, p[i - 1]))
  {
    if i == 0 then approved else Wallet(kind, p[i - 1])
  }

  /** Each wallet equals the one before it, unless the one before it is the default key. */
  predicate Chained(kind: Kind, p: seq<Instruction>, n: nat, approved: Key)
    requires n <= |p| && forall i | 0 <= i < n :: Matches(kind, p[i])
  {
    forall i | 0 <= i < n ::
      Preceding(kind, p, i, approved) == Default || Preceding(kind, p, i, approved) == Wallet(kind, p[i])
  }

  predicate Approvable(kind: Kind, p: seq<Instruction>, n: nat, count: nat, approved: Key) {
    Uniform(kind, p, n, count) && Chained(kind, p, n, approved)
  }

  /** A look-ahead that has already counted `count` accepts exactly what is approvable, and
      approves the wallet of the last instruction it counts. */
  predicate ScannedExactly(kind: Kind, rest: seq<Instruction>, n: nat, count: nat, approved: Key)
    requires count < n
  {
    var p := PoleOnly(rest);
    && (Scan(kind, rest, n, count, approved).Ok? <==> Approvable(kind, p, n - count, count, approved))
    && (Scan(kind, rest, n, count, approved).Ok? ==>
          Scan(kind, rest, n, count, approved).value == Wallet(kind, p[n - count - 1]))
  }

  /** What the look-ahead accepts, from any point of it. */
  lemma {:induction false} ScanExact(kind: Kind, rest: seq<Instruction>, n: nat, count: nat, approved: Key)
    requires count < n
    ensures ScannedExactly(kind, rest, n, count, approved)
  {
    if rest == [] {
    } else if rest[0].Foreign? {
      ScanExact(kind, rest[1..], n, count, approved);
    } else if count + 1 < n && Accept(kind, rest[0], count, approved).Ok? {
      ScanExact(kind, rest[1..], n, count + 1, Wallet(kind, rest[0]));
      ScanAfterAccept(kind, rest, n, count, approved);
    } else {
      ScanEnds(kind, rest, n, count, approved);
    }
  }

  lemma ScanAfterAccept(kind: Kind, rest: seq<Instruction>, n: nat, count: nat, approved: Key)
    requires count + 1 < n && rest != [] && Matches(kind, rest[0]) && Accept(kind, rest[0], count, approved).Ok?
    requires ScannedExactly(kind, rest[1..], n, count + 1, Wallet(kind, rest[0]))
    ensures ScannedExactly(kind, rest, n, count, approved)
  {
    var p := PoleOnly(rest);
    assert p[0] == rest[0] && p[1..] == PoleOnly(rest[1..]);
    ApprovableCons(kind, p, n - count, count, approved);
  }

  lemma ScanEnds(kind: Kind, rest: seq<Instruction>, n: nat, count: nat, approved: Key)
    requires count < n && rest != [] && !rest[0].Foreign?
    requires count + 1 == n || Accept(kind, rest[0], count, approved).Err?
    ensures ScannedExactly(kind, rest, n, count, approved)
  {
    assert PoleOnly(rest)[0] == rest[0];
    FirstAccepted(kind, PoleOnly(rest), n - count, count, approved);
  }

  lemma FirstAccepted(kind: Kind, p: seq<Instruction>, n: nat, count: nat, approved: Key)
    requires 0 < n && 0 < |p|
    ensures Approvable(kind, p, n, count, approved) ==> Accept(kind, p[0], count, approved).Ok?
    ensures n == 1 ==> (Approvable(kind, p, n, count, approved) <==> Accept(kind, p[0], count, approved).Ok?)
  {
    if Approvable(kind, p, n, count, approved) {
      assert Preceding(kind, p, 0, approved) == approved;
    }
  }

  lemma ApprovableCons(kind: Kind, p: seq<Instruction>, n: nat, count: nat, approved: Key)
    requires 0 < n && 0 < |p| && Accept(kind, p[0], count, approved).Ok?
    ensures Approvable(kind, p, n, count, approved)
       <==> Approvable(kind, p[1..], n - 1, count + 1, Wallet(kind, p[0]))
  {
    var q := p[1..];
    var wallet := Wallet(kind, p[0]);
    if Approvable(kind, q, n - 1, count + 1, wallet) {
      forall i | 0 <= i < n
        ensures Matches(kind, p[i]) && (0 < Amount(kind, p[i]) <==> count + i == 0)
      {
        assert 0 < i ==> p[i] == q[i - 1];
      }
      forall i | 0 <= i < n
        ensures Preceding(kind, p, i, approved) == Default || Preceding(kind, p, i, approved) == Wallet(kind, p[i])
      {
        if 0 < i {
          assert Preceding(kind, p, i, approved) == Preceding(kind, q, i - 1, wallet);
        }
      }
    }
    if Approvable(kind, p, n, count, approved) {
      forall i | 0 <= i < n - 1
        ensures Matches(kind, q[i]) && (0 < Amount(kind, q[i]) <==> count + 1 + i == 0)
      {
        assert q[i] == p[i + 1];
      }
      forall i | 0 <= i < n - 1
        ensures Preceding(kind, q, i, wallet) == Default || Preceding(kind, q, i, wallet) == Wallet(kind, q[i])
      {
        assert Preceding(kind, q, i, wallet) == Preceding(kind, p, i + 1, approved);
      }
    }
  }

  /** The error r of a look-ahead over p whose first i instructions are acceptable: that of
      the next one, or of there being none. */
  predicate ErrsAt(kind: Kind, p: seq<Instruction>, r: Result<Key>, count: nat, approved: Key, i: nat)
    requires i <= |p| && (0 < i ==> Matches(kind, p[i - 1]))
  {
    if i == |p| || !Matches(kind, p[i]) then r == Err(InvalidTransaction)
    else if !(0 < Amount(kind, p[i]) <==> count + i == 0) then r == Err(AmountError(kind))
    else Preceding(kind, p, i, approved) !in {Default, Wallet(kind, p[i])} ==> r == Err(WalletError(kind))
  }

  /** The first instruction of this program that is not acceptable decides the error, and
      so does running out of them. */
  lemma {:induction false} ScanError(kind: Kind, rest: seq<Instruction>, n: nat, count: nat, approved: Key, i: nat)
    requires count < n && i < n - count && i <= |PoleOnly(rest)|
    requires Approvable(kind, PoleOnly(rest), i, count, approved)
    ensures ErrsAt(kind, PoleOnly(rest), Scan(kind, rest, n, count, approved), count, approved, i)
  {
    if rest == [] {
    } else if rest[0].Foreign? {
      ScanError(kind, rest[1..], n, count, approved, i);
    } else if i == 0 {
      FirstErrs(kind, rest, n, count, approved);
    } else {
      ScansOn(kind, rest, n, count, approved, i);
      ScanError(kind, rest[1..], n, count + 1, Wallet(kind, rest[0]), i - 1);
      ErrsLater(kind, PoleOnly(rest), Scan(kind, rest, n, count, approved), count, approved, i);
    }
  }

  lemma ScansOn(kind: Kind, rest: seq<Instruction>, n: nat, count: nat, approved: Key, i: nat)
    requires count < n && 0 < i < n - count && i <= |PoleOnly(rest)| && rest != [] && !rest[0].Foreign?
    requires Approvable(kind, PoleOnly(rest), i, count, approved)
    ensures Matches(kind, rest[0]) && PoleOnly(rest)[0] == rest[0] && PoleOnly(rest)[1..] == PoleOnly(rest[1..])
    ensures Scan(kind, rest, n, count, approved) == Scan(kind, rest[1..], n, count + 1, Wallet(kind, rest[0]))
    ensures Approvable(kind, PoleOnly(rest[1..]), i - 1, count + 1, Wallet(kind, rest[0]))
  {
    var p := PoleOnly(rest);
    assert p[0] == rest[0] && p[1..] == PoleOnly(rest[1..]);
    FirstAccepted(kind, p, i, count, approved);
    ApprovableCons(kind, p, i, count, approved);
  }

  lemma FirstErrs(kind: Kind, rest: seq<Instruction>, n: nat, count: nat, approved: Key)
    requires count < n && rest != [] && !rest[0].Foreign?
    ensures ErrsAt(kind, PoleOnly(rest), Scan(kind, rest, n, count, approved), count, approved, 0)
  {
    assert PoleOnly(rest)[0] == rest[0];
  }

  lemma ErrsLater(kind: Kind, p: seq<Instruction>, r: Result<Key>, count: nat, approved: Key, i: nat)
    requires 0 < i <= |p| && Matches(kind, p[0]) && Matches(kind, p[i - 1])
    requires 1 < i ==> Matches(kind, p[1..][i - 2])
    requires ErrsAt(kind, p[1..], r, count + 1, Wallet(kind, p[0]), i - 1)
    ensures ErrsAt(kind, p, r, count, approved, i)
  {
    assert i < |p| ==> p[i] == p[1..][i - 1];
  }

  /** The errors the two look-aheads give. */
  lemma ErrorsOfKind()
    ensures AmountError(Depositing) == DepositAmountInvalid && WalletError(Depositing) == WrongWallet
    ensures AmountError(Redeeming) == RedeemAmountInvalid && WalletError(Redeeming) == InvalidTransaction
  {
  }

  /** With no default keys among the wallets, the look-ahead succeeds if and only if the
      next n instructions of this program exist, are all of the expected kind, share one
      wallet, and only the first has an amount; it then approves that wallet. */
  lemma ScanAccepts(kind: Kind, rest: seq<Instruction>, n: nat)
    requires 0 < n
    requires forall ins | ins in rest && Matches(kind, ins) :: Wallet(kind, ins) != Default
    ensures var p := PoleOnly(rest);
      Scan(kind, rest, n, 0, Default).Ok? <==>
        Uniform(kind, p, n, 0) && forall i | 0 <= i < n :: Wallet(kind, p[i]) == Wallet(kind, p[0])
    ensures Scan(kind, rest, n, 0, Default).Ok? ==>
      Scan(kind, rest, n, 0, Default).value == Wallet(kind, PoleOnly(rest)[0])
  {
    var p := PoleOnly(rest);
    ScanExact(kind, rest, n, 0, Default);
    if Uniform(kind, p, n, 0) && Chained(kind, p, n, Default) {
      ChainShares(kind, p, n);
    }
  }

  lemma {:induction false} ChainShares(kind: Kind, p: seq<Instruction>, n: nat)
    requires 0 < n && Uniform(kind, p, n, 0) && Chained(kind, p, n, Default)
    requires forall i | 0 <= i < n :: Wallet(kind, p[i]) != Default
    ensures forall i | 0 <= i < n :: Wallet(kind, p[i]) == Wallet(kind, p[0])
  {
    if n == 1 {
    } else {
      ChainShares(kind, p, n - 1);
      assert Preceding(kind, p, n - 1, Default) == Wallet(kind, p[n - 2]);
    }
  }
}
