/** Local state of one bank process in a three-process system that stamps its
    events with vector clocks: a 3-slot clock, the process's own slot index
    (its host's position in the fixed peer list) and an integer balance. */
module LogicalTimestamp {

  datatype Option<T> = None | Some(value: T)

  /** The fixed peer list every process holds, in the same order. */
  const PeerList: seq<string> := ["glados.cs.rit.edu", "doors.cs.rit.edu", "hendrix.cs.rit.edu"]
  /** Number of vector-clock slots (the clock is created as a 3-element literal). */
  const Slots: nat := 3
  const InitialBalance: int := 1000
  /** Closed range from which a transfer amount is drawn. */
  const MinAmount: int := 1
  const MaxAmount: int := 100

  /** Position of the first occurrence of `name` in `names`; None where Python's
      `list.index` raises ValueError because the name is absent. */
  function PeerIndex(names: seq<string>, name: string): (r: Option<nat>)
    ensures r.None? <==> name !in names
    ensures r.Some? ==> r.value < |names| && names[r.value] == name
    ensures r.Some? ==> forall j :: 0 <= j < r.value ==> names[j] != name
  {
    if names == [] then None
    else if names[0] == name then Some(0)
    else match PeerIndex(names[1..], name)
      case None => None
      case Some(k) => Some(k + 1)
  }

  /** One elementary change of the process state: an own-slot clock tick, or a
      debit of the balance by an amount. */
  datatype Step = Tick | Debit(amount: int)

  /** The clock after a history of steps, starting from all-zero; every Tick
      advances slot `self` by one. */
  ghost function ClockAfter(h: seq<Step>, self: nat): (c: seq<int>)
    requires self < Slots
    ensures |c| == Slots
  {
    if h == [] then seq(Slots, _ => 0)
    else
      var c := ClockAfter(h[..|h| - 1], self);
      if h[|h| - 1].Tick? then c[self := c[self] + 1] else c
  }

  /** The balance after a history of steps, starting from the initial balance. */
  ghost function BalanceAfter(h: seq<Step>): int
  {
    if h == [] then InitialBalance
    else
      var b := BalanceAfter(h[..|h| - 1]);
      match h[|h| - 1]
      case Tick => b
      case Debit(a) => b - a
  }

  /** Number of clock ticks in a history. */
  ghost function Ticks(h: seq<Step>): nat
  {
    if h == [] then 0 else Ticks(h[..|h| - 1]) + (if h[|h| - 1].Tick? then 1 else 0)
  }

  /** Number of debits in a history. */
  ghost function Debits(h: seq<Step>): nat
  {
    if h == [] then 0 else Debits(h[..|h| - 1]) + (if h[|h| - 1].Debit? then 1 else 0)
  }

  /** Sum of all debited amounts in a history. */
  ghost function Debited(h: seq<Step>): int
  {
    if h == [] then 0
    else Debited(h[..|h| - 1]) + (match h[|h| - 1] case Tick => 0 case Debit(a) => a)
  }

  /** Every debit in the history was drawn from the range MinAmount..MaxAmount. */
  ghost predicate AmountsInRange(h: seq<Step>)
  {
    forall k :: 0 <= k < |h| && h[k].Debit? ==> MinAmount <= h[k].amount <= MaxAmount
  }

  /** The clock a process reaches is all zero except its own slot, which holds
      the number of ticks: nothing in the process ever touches another slot. */
  lemma {:induction false} ClockCountsOwnTicks(h: seq<Step>, self: nat)
    requires self < Slots
    ensures ClockAfter(h, self)[self] == Ticks(h)
    ensures forall j :: 0 <= j < Slots && j != self ==> ClockAfter(h, self)[j] == 0
  {
    if h != [] {
      ClockCountsOwnTicks(h[..|h| - 1], self);
    }
  }

  /** Slots never decrease: the clock after any prefix of a history is slot-wise
      at most the clock after the whole history. */
  lemma {:induction false} ClockMonotone(h: seq<Step>, k: nat, self: nat)
    requires k <= |h| && self < Slots
    ensures forall j :: 0 <= j < Slots ==> ClockAfter(h[..k], self)[j] <= ClockAfter(h, self)[j]
  {
    if k < |h| {
      var p := h[..|h| - 1];
      assert p[..k] == h[..k];
      ClockMonotone(p, k, self);
    } else {
      assert h[..k] == h;
    }
  }

  /** The balance is the initial balance minus everything debited. */
  lemma {:induction false} BalanceIsInitialMinusDebited(h: seq<Step>)
    ensures BalanceAfter(h) == InitialBalance - Debited(h)
  {
    if h != [] {
      BalanceIsInitialMinusDebited(h[..|h| - 1]);
    }
  }

  /** With every amount in 1..100, each debit lowers the balance by at least 1
      and at most 100; there is no floor other than that. */
  lemma {:induction false} BalanceBounds(h: seq<Step>)
    requires AmountsInRange(h)
    ensures InitialBalance - MaxAmount * Debits(h) <= BalanceAfter(h) <= InitialBalance - MinAmount * Debits(h)
  {
    if h != [] {
      var p := h[..|h| - 1];
      assert AmountsInRange(p) by {
        forall k | 0 <= k < |p| && p[k].Debit?
          ensures MinAmount <= p[k].amount <= MaxAmount
        {
          assert p[k] == h[k];
        }
      }
      BalanceBounds(p);
    }
  }

  /** One process: its clock, its slot index and its balance. The lock that
      guards them is not modelled; each method is one atomic step. */
  class Process {
    const peerList: seq<string>
    const vectorIndex: nat
    /** The clock list, updated in place; its reference never changes. */
    const vectorTime: array<int>
    var balance: int
    /** The elementary steps performed so far. */
    ghost var steps: seq<Step>

    ghost predicate Valid()
      reads this, vectorTime
    {
      peerList == PeerList &&
      vectorIndex < |peerList| &&
      vectorTime.Length == Slots &&
      vectorTime[..] == ClockAfter(steps, vectorIndex) &&
      balance == BalanceAfter(steps) &&
      AmountsInRange(steps)
    }

    /** Starts a process on `hostName`, whose slot is that name's position in
        the peer list; clock all zero, balance 1000. */
    constructor (hostName: string)
      requires hostName in PeerList
      ensures Valid() && fresh(vectorTime)
      ensures PeerIndex(PeerList, hostName) == Some(vectorIndex)
      ensures peerList[vectorIndex] == hostName
      ensures vectorTime[..] == [0, 0, 0] && balance == InitialBalance
      ensures steps == []
    {
      vectorTime := new int[3] [0, 0, 0];
      peerList := PeerList;
      vectorIndex := PeerIndex(PeerList, hostName).value;
      balance := InitialBalance;
      steps := [];
    }

    /** Advances the process's own clock slot by one; nothing else changes. */
    method IncrementClock()
      requires Valid()
      modifies this, vectorTime
      ensures Valid()
      ensures vectorTime[vectorIndex] == old(vectorTime[vectorIndex]) + 1
      ensures forall j :: 0 <= j < Slots && j != vectorIndex ==> vectorTime[j] == old(vectorTime[j])
      ensures balance == old(balance)
      ensures steps == old(steps) + [Tick]
    {
      vectorTime[vectorIndex] := vectorTime[vectorIndex] + 1;
      steps := steps + [Tick];
      assert steps[..|steps| - 1] == old(steps);
    }

    /** The critical section of a transfer: `amount` and `peerChoiceIndex` are
        the values drawn at random; ticks the own slot once and debits the
        balance by `amount` with no funds check. The source returns nothing; the
        result only exposes the peer it picks into a local variable and never
        uses, which may be this process itself. */
    method SendMoney(amount: int, peerChoiceIndex: nat) returns (peer: string)
      requires Valid()
      requires MinAmount <= amount <= MaxAmount
      requires peerChoiceIndex < |PeerList|
      modifies this, vectorTime
      ensures Valid()
      ensures peer == peerList[peerChoiceIndex] && peer in PeerList
      ensures vectorTime[vectorIndex] == old(vectorTime[vectorIndex]) + 1
      ensures forall j :: 0 <= j < Slots && j != vectorIndex ==> vectorTime[j] == old(vectorTime[j])
      ensures balance == old(balance) - amount
      ensures steps == old(steps) + [Tick, Debit(amount)]
    {
      peer := peerList[peerChoiceIndex];
      IncrementClock();
      balance := balance - amount;
      ghost var ticked := steps;
      steps := steps + [Debit(amount)];
      assert steps[..|steps| - 1] == ticked;
    }
  }

  /** No funds check: a fresh process that performs eleven transfers of the
      largest amount it can draw ends with a negative balance. */
  method OverdraftByTransfers() returns (final: int)
    ensures final == InitialBalance - 11 * MaxAmount && final < 0
  {
    var p := new Process(PeerList[0]);
    var i := 0;
    while i < 11
      invariant 0 <= i <= 11
      invariant p.Valid() && p.balance == InitialBalance - MaxAmount * i
    {
      var _ := p.SendMoney(MaxAmount, i % |PeerList|);
      i := i + 1;
    }
    final := p.balance;
  }
}
