/** Freshness over runs: how old the last sale can be when a step is accepted. */
module Freshness {
  import opened Wad
  import opened Ledger
  import opened Plan
  import opened Pool
  import Atomicity

  /** An instruction that was accepted and committed, with what it saw and what it did. */
  datatype Event = Event(env: Env, ins: Instruction, rest: seq<Instruction>, pre: State, post: State)

  predicate Happened(e: Event) {
    Step(e.pre, e.env, e.ins, e.rest) == Ok(e.post)
  }

  /** The committed instructions of a pool since its creation, under a clock that is
      positive and never goes backwards. */
  predicate Trace(events: seq<Event>) {
    && (forall i | 0 <= i < |events| :: Happened(events[i]) && 0 < events[i].env.slot)
    && (forall i | 0 < i < |events| :: events[i].pre == events[i - 1].post)
    && (forall i, j | 0 <= i <= j < |events| :: events[i].env.slot <= events[j].env.slot)
    && (events != [] ==> events[0].pre.port.lastSoldSlot == 0)
  }

  predicate CompletesDeposit(e: Event) {
    e.ins.Deposit? && e.pre.port.leverage + 1 == e.pre.portIterate
  }

  /** A sale, or the completion of a deposit when nothing was recorded yet. */
  predicate Refreshes(e: Event) {
    e.ins.ClaimAndSell? || (CompletesDeposit(e) && e.pre.port.lastSoldSlot == 0)
  }

  /** Only these two change the recorded slot; in particular no reset erases it. */
  lemma RecordedSlot(e: Event)
    requires Happened(e)
    ensures e.post.port.lastSoldSlot == if Refreshes(e) then e.env.slot else e.pre.port.lastSoldSlot
  {
    match e.ins
    case Deposit(amount, user, userLp, fee) => DepositSlot(e.pre, e.env, amount, user, userLp, fee);
    case Redeem(amount, user, userLp) => Atomicity.RedeemStepControl(e.pre, e.env, amount, user, userLp);
                                         RedeemSlot(e.pre, e.env, amount, user, userLp);
    case _ =>
  }

  lemma DepositSlot(s: State, env: Env, amount: u64, user: Key, userLp: Key, fee: nat)
    requires DepositStep(s, env, amount, user, userLp, fee).Ok?
    ensures DepositStep(s, env, amount, user, userLp, fee).value.port.lastSoldSlot
         == if s.port.leverage + 1 == s.portIterate && s.port.lastSoldSlot == 0 then env.slot else s.port.lastSoldSlot
  {
  }

  lemma RedeemSlot(s: State, env: Env, amount: u64, user: Key, userLp: Key)
    requires RedeemStep(s, env, amount, user, userLp).Ok?
    ensures RedeemStep(s, env, amount, user, userLp).value.port.lastSoldSlot == s.port.lastSoldSlot
  {
    if s.port.isRedeemed != 1 {
      Atomicity.RedeemWorkKeeps(s, env, amount, user, userLp);
    }
  }

  /** What freshness needs to know of an event: its slot, the slot recorded before it, and
      whether it is a sale or completes a deposit. */
  datatype Mark = Mark(slot: nat, record: nat, sale: bool, completes: bool) {
    predicate Refreshes() {
      sale || (completes && record == 0)
    }
  }

  function MarkOf(e: Event): Mark {
    Mark(e.env.slot, e.pre.port.lastSoldSlot, e.ins.ClaimAndSell?, CompletesDeposit(e))
  }

  function Marks(events: seq<Event>): (marks: seq<Mark>)
    ensures |marks| == |events| && forall i | 0 <= i < |events| :: marks[i] == MarkOf(events[i])
  {
    seq(|events|, i requires 0 <= i < |events| => MarkOf(events[i]))
  }

  /** How the recorded slot evolves. */
  predicate Log(marks: seq<Mark>) {
    && (forall i | 0 <= i < |marks| :: 0 < marks[i].slot)
    && (marks != [] ==> marks[0].record == 0)
    && (forall i | 0 < i < |marks| ::
          marks[i].record == if marks[i - 1].Refreshes() then marks[i - 1].slot else marks[i - 1].record)
  }

  lemma TraceIsLog(events: seq<Event>)
    requires Trace(events)
    ensures Log(Marks(events))
  {
    forall i | 0 < i < |events|
      ensures MarkOf(events[i]).record
           == if MarkOf(events[i - 1]).Refreshes() then events[i - 1].env.slot else MarkOf(events[i - 1]).record
    {
      assert Happened(events[i - 1]);
      RecordedSlot(events[i - 1]);
    }
  }

  /** A slot recorded before event i comes from an earlier refresh. */
  lemma {:induction false} SourceOfRecord(marks: seq<Mark>, i: nat) returns (m: nat)
    requires Log(marks) && i < |marks| && marks[i].record != 0
    ensures m < i && marks[m].Refreshes() && marks[m].slot == marks[i].record
  {
    if marks[i - 1].Refreshes() {
      m := i - 1;
    } else {
      m := SourceOfRecord(marks, i - 1);
    }
  }

  /** Once a deposit has completed there is a recorded slot for ever. */
  lemma {:induction false} RecordStays(marks: seq<Mark>, j: nat, i: nat)
    requires Log(marks) && j < i < |marks| && marks[j].completes
    ensures marks[i].record != 0
  {
    if j == i - 1 {
    } else {
      RecordStays(marks, j, i - 1);
    }
  }

  /** Every deposit or redeem step accepted after the first completed deposit comes at most
      50 slots after a sale or after that first completion. */
  lemma AcceptedStepsAreFresh(events: seq<Event>, i: nat, j: nat)
    requires Trace(events) && j < i < |events| && CompletesDeposit(events[j])
    requires events[i].ins.Deposit? || events[i].ins.Redeem?
    ensures exists m :: 0 <= m < i && Refreshes(events[m])
                     && events[m].env.slot <= events[i].env.slot <= events[m].env.slot + 50
  {
    TraceIsLog(events);
    RecordStays(Marks(events), j, i);
    var m := SourceOfRecord(Marks(events), i);
    assert Refreshes(events[m]);
    assert Happened(events[i]);
    GuardedByFreshness(events[i]);
  }

  lemma GuardedByFreshness(e: Event)
    requires Happened(e) && e.pre.port.lastSoldSlot != 0 && (e.ins.Deposit? || e.ins.Redeem?)
    ensures e.pre.port.lastSoldSlot <= e.env.slot <= e.pre.port.lastSoldSlot + 50
  {
  }

  /** The recorded slot is the latest refresh's: none of an event before it is later. */
  lemma {:induction false} RecordIsLatest(marks: seq<Mark>, m: nat, i: nat)
    requires Log(marks) && m < i < |marks| && marks[m].Refreshes()
    requires forall j, k | 0 <= j <= k < |marks| :: marks[j].slot <= marks[k].slot
    ensures marks[m].slot <= marks[i].record <= marks[i - 1].slot
  {
    if m == i - 1 {
    } else {
      RecordIsLatest(marks, m, i - 1);
    }
  }

  function LastRecord(marks: seq<Mark>): nat
    requires marks != []
  {
    var last := marks[|marks| - 1];
    if last.Refreshes() then last.slot else last.record
  }

  lemma LastRecordIsLatest(marks: seq<Mark>, m: nat)
    requires Log(marks) && m < |marks| && marks[m].Refreshes()
    requires forall j, k | 0 <= j <= k < |marks| :: marks[j].slot <= marks[k].slot
    ensures marks[m].slot <= LastRecord(marks) <= marks[|marks| - 1].slot
  {
    if m < |marks| - 1 {
      RecordIsLatest(marks, m, |marks| - 1);
    }
  }

  /** The slot recorded after a trace that has refreshed it. */
  lemma RecordAfter(events: seq<Event>, m: nat)
    requires Trace(events) && m < |events| && Refreshes(events[m])
    ensures var last := events[|events| - 1];
      events[m].env.slot <= last.post.port.lastSoldSlot <= last.env.slot
  {
    TraceIsLog(events);
    LastRecordIsLatest(Marks(events), m);
    RecordIsLast(events);
  }

  lemma RecordIsLast(events: seq<Event>)
    requires events != [] && Happened(events[|events| - 1])
    ensures LastRecord(Marks(events)) == events[|events| - 1].post.port.lastSoldSlot
  {
    RecordedSlot(events[|events| - 1]);
  }

  /** The converse: at most 50 slots after a sale or a first completed deposit, no deposit or
      redeem step is refused for want of a sale, whatever else it may be refused for. */
  lemma FreshStepsPass(events: seq<Event>, m: nat, env: Env, ins: Instruction, rest: seq<Instruction>)
    requires Trace(events) && m < |events| && Refreshes(events[m])
    requires events[|events| - 1].env.slot <= env.slot <= events[m].env.slot + 50
    ensures Step(events[|events| - 1].post, env, ins, rest) != Err(PortNotSell)
  {
    RecordAfter(events, m);
    NotStale(events[|events| - 1].post, env, ins, rest);
  }

  lemma NotStale(s: State, env: Env, ins: Instruction, rest: seq<Instruction>)
    requires s.port.lastSoldSlot <= env.slot <= s.port.lastSoldSlot + 50
    ensures Step(s, env, ins, rest) != Err(PortNotSell)
  {
    match ins
    case Deposit(amount, user, userLp, fee) => Atomicity.DepositNeverPanics(s, env, amount, user, userLp, fee);
    case Redeem(amount, user, userLp) => Atomicity.RedeemNeverPanics(s, env, amount, user, userLp);
    case VerifyDeposit => ScanNeverStale(Depositing, rest, s.portIterate, 0, Default);
    case VerifyRedeem => ScanNeverStale(Redeeming, rest, s.portIterate, 0, Default);
    case _ =>
  }

  lemma {:induction false} ScanNeverStale(kind: Kind, rest: seq<Instruction>, n: nat, count: nat, approved: Key)
    ensures Scan(kind, rest, n, count, approved) != Err(PortNotSell)
  {
    if rest == [] {
    } else if rest[0].Foreign? {
      ScanNeverStale(kind, rest[1..], n, count, approved);
    } else {
      var accepted := Accept(kind, rest[0], count, approved);
      if accepted.Ok? {
        ScanNeverStale(kind, rest[1..], n, count + 1, accepted.value);
      }
    }
  }

  /* Traces from histories. */

  /** The events of a transaction that succeeds. */
  function EventsOf(s: State, env: Env, tx: seq<Instruction>): seq<Event>
    requires Run(s, env, tx).Ok?
    decreases |tx|
  {
    if tx == [] then []
    else
      var next := Step(s, env, tx[0], tx[1..]).value;
      [Event(env, tx[0], tx[1..], s, next)] + EventsOf(next, env, tx[1..])
  }

  /** The committed instructions of a history: those of the transactions that succeeded. */
  function Committed(s: State, txs: seq<Atomicity.Transaction>): seq<Event> {
    if txs == [] then []
    else
      var last := txs[|txs| - 1];
      var before := Atomicity.History(s, txs[..|txs| - 1]);
      Committed(s, txs[..|txs| - 1])
      + if Run(before, last.env, last.instructions).Ok? then EventsOf(before, last.env, last.instructions) else []
  }

  /** Events that happened one after the other, from s to t. */
  predicate Leads(s: State, events: seq<Event>, t: State) {
    && (forall i | 0 <= i < |events| :: Happened(events[i]))
    && (forall i | 0 < i < |events| :: events[i].pre == events[i - 1].post)
    && (if events == [] then s == t else events[0].pre == s && events[|events| - 1].post == t)
  }

  lemma LeadsOn(s: State, a: seq<Event>, m: State, b: seq<Event>, t: State)
    requires Leads(s, a, m) && Leads(m, b, t)
    ensures Leads(s, a + b, t)
  {
    if a == [] {
      assert a + b == b;
    } else if b == [] {
      assert a + b == a;
    }
  }

  lemma {:induction false} EventsLead(s: State, env: Env, tx: seq<Instruction>)
    requires Run(s, env, tx).Ok?
    ensures Leads(s, EventsOf(s, env, tx), Run(s, env, tx).value)
    ensures forall e | e in EventsOf(s, env, tx) :: e.env == env
    decreases |tx|
  {
    if tx == [] {
    } else {
      var next := Step(s, env, tx[0], tx[1..]).value;
      EventsLead(next, env, tx[1..]);
      LeadsOn(s, [Event(env, tx[0], tx[1..], s, next)], next, EventsOf(next, env, tx[1..]), Run(s, env, tx).value);
    }
  }

  /** The transactions of a history see a positive clock that never goes backwards. */
  predicate Clocked(txs: seq<Atomicity.Transaction>) {
    && (forall i | 0 <= i < |txs| :: 0 < txs[i].env.slot)
    && (forall i, j | 0 <= i <= j < |txs| :: txs[i].env.slot <= txs[j].env.slot)
  }

  predicate Ordered(events: seq<Event>) {
    && (forall e | e in events :: 0 < e.env.slot)
    && (forall i, j | 0 <= i <= j < |events| :: events[i].env.slot <= events[j].env.slot)
  }

  lemma OrderedThen(a: seq<Event>, b: seq<Event>, env: Env)
    requires Ordered(a) && 0 < env.slot
    requires forall e | e in a :: e.env.slot <= env.slot
    requires forall e | e in b :: e.env == env
    ensures Ordered(a + b)
  {
    var c := a + b;
    forall i, j | 0 <= i <= j < |c|
      ensures c[i].env.slot <= c[j].env.slot
    {
      assert |a| <= i ==> c[i] in b;
      assert |a| <= j ==> c[j] in b;
      assert i < |a| ==> c[i] == a[i] && c[i] in a;
      assert j < |a| ==> c[j] == a[j];
    }
  }

  lemma {:induction false} CommittedLead(s: State, txs: seq<Atomicity.Transaction>)
    ensures Leads(s, Committed(s, txs), Atomicity.History(s, txs))
  {
    if txs == [] {
    } else {
      var earlier, last := txs[..|txs| - 1], txs[|txs| - 1];
      var before := Atomicity.History(s, earlier);
      CommittedLead(s, earlier);
      if Run(before, last.env, last.instructions).Ok? {
        EventsLead(before, last.env, last.instructions);
        LeadsOn(s, Committed(s, earlier), before, EventsOf(before, last.env, last.instructions),
                Atomicity.History(s, txs));
      }
    }
  }

  lemma {:induction false} CommittedOrdered(s: State, txs: seq<Atomicity.Transaction>)
    requires Clocked(txs)
    ensures Ordered(Committed(s, txs))
    ensures forall e | e in Committed(s, txs) :: txs != [] && e.env.slot <= txs[|txs| - 1].env.slot
  {
    if txs == [] {
    } else {
      var earlier, last := txs[..|txs| - 1], txs[|txs| - 1];
      var before := Atomicity.History(s, earlier);
      CommittedOrdered(s, earlier);
      if Run(before, last.env, last.instructions).Ok? {
        EventsLead(before, last.env, last.instructions);
        OrderedThen(Committed(s, earlier), EventsOf(before, last.env, last.instructions), last.env);
      }
    }
  }

  lemma LeadsIsTrace(s: State, events: seq<Event>, t: State)
    requires Leads(s, events, t) && Ordered(events) && s.port.lastSoldSlot == 0
    ensures Trace(events)
  {
  }

  /** The committed instructions of every history of a created pool form a trace, and lead
      from its creation to where the history ends. */
  lemma HistoryIsTrace(bump: u8, params: InitParams, users: map<Key, nat>, txs: seq<Atomicity.Transaction>)
    requires CreatePool(bump, params, users).Ok? && Clocked(txs)
    ensures var s := CreatePool(bump, params, users).value;
      Trace(Committed(s, txs)) && Leads(s, Committed(s, txs), Atomicity.History(s, txs))
  {
    var s := CreatePool(bump, params, users).value;
    CommittedLead(s, txs);
    CommittedOrdered(s, txs);
    LeadsIsTrace(s, Committed(s, txs), Atomicity.History(s, txs));
  }
}
