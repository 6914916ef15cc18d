# Logical-timestamp bank process: a Dafny model

This project models the local state of one `Process` in a three-process bank system. Each process stamps its events with a vector clock. Its state is:

- `vectorTime`, a 3-slot vector clock that is updated in place. Here it is an `array<int>` whose reference never changes.
- `vectorIndex`, the process's own slot. It is the position of the process's host name in the fixed peer list `PeerList`.
- `balance`, an integer that starts at 1000.

Two operations change the state:

- `IncrementClock` advances the process's own slot by one.
- `SendMoney` is the critical section of a transfer. The amount drawn from 1..100 and the peer index drawn from 0..2 are passed in as parameters. The method picks the peer, ticks the own slot once and debits the balance by the amount. It does not check that funds suffice.

The class keeps a ghost history `steps` of elementary steps (`Tick`, `Debit(amount)`). `Valid()` ties the live array and the balance to `ClockAfter(steps)` and `BalanceAfter(steps)`, and records that every debit so far was drawn from 1..100. The lemmas state what holds over every history:

- the clock is zero except for the own slot;
- the own slot counts the ticks;
- slots never decrease;
- the balance is 1000 minus what has been debited, and with amounts in 1..100 it falls by 1 to 100 per transfer;
- it has no floor: a method drives a real `Process` through eleven transfers of 100 into a negative balance.

Everything lives in module `LogicalTimestamp` (`process.dfy`).

## Model

| member | source | states |
|---|---|---|
| `LogicalTimestamp.PeerIndex` | process.py:25-26 | Python's `list.index`: the result is absent exactly when the name is not in the list (ValueError). Otherwise it is an in-range position holding the name, and no earlier position holds it. |
| `LogicalTimestamp.Process.constructor` | process.py:22-28 | A new process has clock `[0,0,0]` and balance 1000. Its slot is the host's position in the 3-entry peer list, so it lies in 0..2. |
| `LogicalTimestamp.Process.IncrementClock` | process.py:31-38 | The own slot rises by exactly 1. Every other slot and the balance are unchanged, and the clock keeps its 3 slots. |
| `LogicalTimestamp.Process.SendMoney` | process.py:107-116 | The chosen peer is the element of the peer list at the drawn index, which may be this process itself. The own slot rises by exactly 1, the other slots are unchanged and the balance drops by exactly the amount, with no funds check. |
| `LogicalTimestamp.ClockAfter` | process.py:24 | Every clock that any history of steps reaches has exactly 3 slots. |
| `LogicalTimestamp.ClockCountsOwnTicks` | process.py:24-38 | After any history, the own slot equals the number of ticks performed and every other slot is still 0. Nothing in the process merges clocks. |
| `LogicalTimestamp.ClockMonotone` | process.py:38 | Slots never decrease. The clock after any prefix of a history is, slot by slot, at most the clock after the whole history. |
| `LogicalTimestamp.BalanceIsInitialMinusDebited` | process.py:27 | The balance after any history is 1000 minus the sum of all amounts debited. |
| `LogicalTimestamp.BalanceBounds` | process.py:107-116 | If every amount is in 1..100, then after `d` debits the balance lies between `1000 - 100*d` and `1000 - d`. |
| `LogicalTimestamp.OverdraftByTransfers` | process.py:107-116 | A new process that performs eleven transfers of 100 through `SendMoney` ends with balance `1000 - 1100`, which is negative. Nothing guards against overdraft. |

## Left out

- Sockets and the accept loop (`create_listener`, `accept_connections`, process.py:41-69) are network I/O.
- Threads and the lock (process.py:28, 68, 112, 119) are concurrency. Each method is one atomic step, which is what the lock provides for the critical section.
- The JSON decoding in `handle_connections` (process.py:72-86) is a library parser whose result is then discarded.
- `handle_deposit` and `withdraw_money` (process.py:88-98, 126-134) have empty bodies. The class docstring (process.py:12-16) announces withdraw and deposit actions, but both bodies are `pass` and no code merges clocks. So deposit, withdrawal, receipt and clock merge are not modelled.
- The outgoing message dictionary (process.py:121-123) is syntactically broken (a bare `''` inside a dict display), so process.py as written cannot even be imported. The model describes the code as written, not a program that ever ran. The message is never sent. The request tag `'DEPO'` (process.py:108) is never used either.
- `current_time = self.vector_time` (process.py:115) takes an alias of the live list, not a snapshot. Nothing reads it, so it is not modelled.
- `random.randint` and `socket.getfqdn()` (process.py:26, 107, 109) are inputs. The drawn values are method parameters, and their ranges are preconditions.
- Process.constructor: requires the host name to be in the peer list. The ValueError that `__init__` raises otherwise is captured by `PeerIndex` returning `None`.
