/** The arithmetic of the ledger, on values: what a transfer does to the
    balances of the accounts and to the list of entries, independent of
    the order in which the store applies its two balance updates. */
module Ledger {
  import opened Db

  /** The balance column of the accounts table. */
  function Balances(accounts: map<int, Account>): (b: map<int, int>)
    ensures b.Keys == accounts.Keys
    ensures forall id :: id in b ==> b[id] == accounts[id].balance
  {
    map id | id in accounts :: accounts[id].balance
  }

  /** One relative balance update, `balance = balance + delta`. */
  function Credit(b: map<int, int>, id: int, delta: int): map<int, int>
    requires id in b
  {
    b[id := b[id] + delta]
  }

  /** The net effect of moving `amount` from `from` to `to`: the source
      loses it, the destination gains it, no other account changes. When
      source and destination coincide nothing changes. */
  function Moved(b: map<int, int>, from: int, to: int, amount: int): (r: map<int, int>)
    ensures r.Keys == b.Keys
  {
    map k | k in b :: b[k] - (if k == from then amount else 0) + (if k == to then amount else 0)
  }

  /** Two relative updates reach the net effect in either order; this is
      why the store may pick the order freely (smaller id first). */
  lemma CreditsAreMove(b: map<int, int>, from: int, to: int, amount: int)
    requires from in b && to in b
    ensures Credit(Credit(b, from, -amount), to, amount) == Moved(b, from, to, amount)
    ensures Credit(Credit(b, to, amount), from, -amount) == Moved(b, from, to, amount)
  {
    var m := Moved(b, from, to, amount);
    var x := Credit(Credit(b, from, -amount), to, amount);
    var y := Credit(Credit(b, to, amount), from, -amount);
    assert x.Keys == m.Keys && forall k :: k in x ==> x[k] == m[k];
    assert y.Keys == m.Keys && forall k :: k in y ==> y[k] == m[k];
  }

  /** Moving an amount and moving it back restores every balance. */
  lemma MoveBack(b: map<int, int>, from: int, to: int, amount: int)
    ensures Moved(Moved(b, from, to, amount), to, from, amount) == b
  {
    var r := Moved(Moved(b, from, to, amount), to, from, amount);
    assert forall k :: k in r ==> r[k] == b[k];
  }

  /** Sum of the balances of the listed accounts (an account listed twice
      counts twice, an unknown one counts zero). */
  function SumOver(b: map<int, int>, ids: seq<int>): int
  {
    if ids == [] then 0 else (if ids[0] in b then b[ids[0]] else 0) + SumOver(b, ids[1..])
  }

  function Occurrences(ids: seq<int>, id: int): nat
  {
    if ids == [] then 0 else (if ids[0] == id then 1 else 0) + Occurrences(ids[1..], id)
  }

  /** A transfer changes a sum of balances by the amount times the number
      of times the destination is listed, less the same for the source. */
  lemma {:induction false} MovedSum(b: map<int, int>, from: int, to: int, amount: int, ids: seq<int>)
    requires from in b && to in b
    ensures SumOver(Moved(b, from, to, amount), ids)
         == SumOver(b, ids) - amount * Occurrences(ids, from) + amount * Occurrences(ids, to)
  {
    if ids != [] {
      var h, m := ids[0], Moved(b, from, to, amount);
      MovedSum(b, from, to, amount, ids[1..]);
      var df: int, dt: int := (if h == from then 1 else 0), (if h == to then 1 else 0);
      Distribute(amount, df, Occurrences(ids[1..], from));
      Distribute(amount, dt, Occurrences(ids[1..], to));
      if h in b {
        assert m[h] == b[h] - amount * df + amount * dt;
      }
    }
  }

  lemma Distribute(a: int, d: int, o: int)
    ensures a * (d + o) == a * d + a * o
  {
  }

  /** Conservation: over any list of accounts that names the source and
      the destination equally often (for instance each exactly once, or
      neither), the total balance does not change. */
  lemma Conservation(b: map<int, int>, from: int, to: int, amount: int, ids: seq<int>)
    requires from in b && to in b
    requires Occurrences(ids, from) == Occurrences(ids, to)
    ensures SumOver(Moved(b, from, to, amount), ids) == SumOver(b, ids)
  {
    MovedSum(b, from, to, amount, ids);
  }

  datatype Move = Move(from: int, to: int, amount: int)

  /** A series of transfers applied one after the other. */
  function ApplyAll(b: map<int, int>, moves: seq<Move>): (r: map<int, int>)
    ensures r.Keys == b.Keys
  {
    if moves == [] then b
    else ApplyAll(Moved(b, moves[0].from, moves[0].to, moves[0].amount), moves[1..])
  }

  /** What a series of transfers brings into account `k`, less what it
      takes out. */
  function Net(moves: seq<Move>, k: int): int
  {
    if moves == [] then 0
    else
      var m := moves[0];
      (if m.to == k then m.amount else 0) - (if m.from == k then m.amount else 0) + Net(moves[1..], k)
  }

  /** After a series of transfers each balance has moved by its net flow. */
  lemma {:induction false} ApplyAllNet(b: map<int, int>, moves: seq<Move>, k: int)
    requires k in b
    ensures ApplyAll(b, moves)[k] == b[k] + Net(moves, k)
  {
    if moves != [] {
      var m := moves[0];
      ApplyAllNet(Moved(b, m.from, m.to, m.amount), moves[1..], k);
    }
  }

  function CountMove(moves: seq<Move>, m: Move): nat
  {
    if moves == [] then 0 else (if moves[0] == m then 1 else 0) + CountMove(moves[1..], m)
  }

  /** A series of equal transfers back and forth between `x` and `y`. */
  predicate Between(moves: seq<Move>, x: int, y: int, amount: int)
  {
    forall i :: 0 <= i < |moves| ==> moves[i] == Move(x, y, amount) || moves[i] == Move(y, x, amount)
  }

  lemma {:induction false} NetBetween(moves: seq<Move>, x: int, y: int, amount: int, k: int)
    requires x != y
    requires Between(moves, x, y, amount)
    ensures k == x ==> Net(moves, k) == amount * (CountMove(moves, Move(y, x, amount)) as int - CountMove(moves, Move(x, y, amount)))
    ensures k == y ==> Net(moves, k) == amount * (CountMove(moves, Move(x, y, amount)) as int - CountMove(moves, Move(y, x, amount)))
    ensures k != x && k != y ==> Net(moves, k) == 0
  {
    if moves != [] {
      assert Between(moves[1..], x, y, amount) by {
        assert forall i :: 0 <= i < |moves[1..]| ==> moves[1..][i] == moves[i + 1];
      }
      NetBetween(moves[1..], x, y, amount, k);
      var cxy: int, cyx: int := CountMove(moves[1..], Move(x, y, amount)), CountMove(moves[1..], Move(y, x, amount));
      if moves[0] == Move(x, y, amount) {
        assert amount * (cyx - (cxy + 1)) == amount * (cyx - cxy) - amount;
        assert amount * ((cxy + 1) - cyx) == amount * (cxy - cyx) + amount;
      } else {
        assert amount * ((cyx + 1) - cxy) == amount * (cyx - cxy) + amount;
        assert amount * (cxy - (cyx + 1)) == amount * (cxy - cyx) - amount;
      }
    }
  }

  /** As many transfers from `x` to `y` as from `y` to `x`, all of the
      same amount and in any interleaving, leave every balance as it was. */
  lemma BackAndForthCancel(b: map<int, int>, moves: seq<Move>, x: int, y: int, amount: int)
    requires x != y && x in b && y in b
    requires Between(moves, x, y, amount)
    requires CountMove(moves, Move(x, y, amount)) == CountMove(moves, Move(y, x, amount))
    ensures ApplyAll(b, moves) == b
  {
    var r := ApplyAll(b, moves);
    forall k | k in r ensures r[k] == b[k] {
      ApplyAllNet(b, moves, k);
      NetBetween(moves, x, y, amount, k);
    }
  }

  /** `n` transfers of `amount` from `x` to `y` move exactly `n * amount`. */
  lemma RepeatedTransfers(b: map<int, int>, x: int, y: int, amount: int, n: nat)
    requires x != y && x in b && y in b
    ensures ApplyAll(b, seq(n, _ => Move(x, y, amount)))[x] == b[x] - n * amount
    ensures ApplyAll(b, seq(n, _ => Move(x, y, amount)))[y] == b[y] + n * amount
  {
    var moves := seq(n, _ => Move(x, y, amount));
    CountSame(n, Move(x, y, amount));
    CountSame(n, Move(y, x, amount));
    assert CountMove(moves, Move(y, x, amount)) == 0 by {
      CountAbsent(moves, Move(y, x, amount));
    }
    assert Between(moves, x, y, amount);
    NetBetween(moves, x, y, amount, x);
    NetBetween(moves, x, y, amount, y);
    assert Net(moves, x) == -(n * amount) by {
      assert Net(moves, x) == amount * (0 - n);
    }
    assert Net(moves, y) == n * amount by {
      assert Net(moves, y) == amount * (n - 0);
    }
    ApplyAllNet(b, moves, x);
    ApplyAllNet(b, moves, y);
  }

  lemma {:induction false} CountSame(n: nat, m: Move)
    ensures CountMove(seq(n, _ => m), m) == n
  {
    if n > 0 {
      CountSame(n - 1, m);
      assert seq(n, _ => m)[1..] == seq(n - 1, _ => m);
    }
  }

  lemma {:induction false} CountAbsent(moves: seq<Move>, m: Move)
    requires forall i :: 0 <= i < |moves| ==> moves[i] != m
    ensures CountMove(moves, m) == 0
  {
    if moves != [] {
      CountAbsent(moves[1..], m);
    }
  }

  /** Sum of the entry amounts recorded against account `id`. */
  function EntrySum(entries: seq<Entry>, id: int): int
  {
    if entries == [] then 0
    else (if entries[0].accountId == id then entries[0].amount else 0) + EntrySum(entries[1..], id)
  }

  lemma {:induction false} EntrySumAppend(a: seq<Entry>, b: seq<Entry>, id: int)
    ensures EntrySum(a + b, id) == EntrySum(a, id) + EntrySum(b, id)
  {
    if a == [] {
      assert a + b == b;
    } else {
      assert (a + b)[1..] == a[1..] + b;
      EntrySumAppend(a[1..], b, id);
    }
  }

  /** The two entries of one transfer: the debit, then the credit. */
  function TransferEntries(from: int, to: int, amount: int): (es: seq<Entry>)
    ensures |es| == 2 && es[0].amount + es[1].amount == 0
  {
    [Entry(from, -amount), Entry(to, amount)]
  }

  /** The ledger invariant: every balance is its opening balance plus the
      amounts of the entries recorded against the account. */
  predicate Ledgered(b: map<int, int>, opening: map<int, int>, entries: seq<Entry>)
  {
    forall id :: id in b ==> id in opening && b[id] == opening[id] + EntrySum(entries, id)
  }

  /** A transfer keeps the ledger invariant when it records its two entries
      and moves the amount. */
  lemma TransferKeepsLedger(b: map<int, int>, opening: map<int, int>, entries: seq<Entry>,
                            from: int, to: int, amount: int)
    requires Ledgered(b, opening, entries)
    ensures Ledgered(Moved(b, from, to, amount), opening, entries + TransferEntries(from, to, amount))
  {
    var es := TransferEntries(from, to, amount);
    forall id | id in b
      ensures EntrySum(entries + es, id)
           == EntrySum(entries, id) - (if id == from then amount else 0) + (if id == to then amount else 0)
    {
      EntrySumAppend(entries, es, id);
      assert es[1..] == [Entry(to, amount)] && es[1..][1..] == [];
      assert EntrySum(es[1..], id) == (if id == to then amount else 0);
      assert EntrySum(es, id) == (if id == from then -amount else 0) + (if id == to then amount else 0);
    }
  }
}
