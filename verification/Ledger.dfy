/** The ledger: replaying a wallet's history, and what the recorded running balances
    have to do with it. */
module Ledger {
  import opened Money

  datatype Entry = Entry(txId: nat, walletId: nat, kind: Kind, amount: int, balanceAfter: int)

  // The entries of one wallet, in the order they were appended.
  function Of(ledger: seq<Entry>, w: nat): seq<Entry> {
    if ledger == [] then []
    else
      var rest := Of(ledger[..|ledger| - 1], w);
      var e := ledger[|ledger| - 1];
      if e.walletId == w then rest + [e] else rest
  }

  // The entries written by one transaction, in the order they were appended.
  function Written(ledger: seq<Entry>, t: nat): seq<Entry> {
    if ledger == [] then []
    else
      var rest := Written(ledger[..|ledger| - 1], t);
      var e := ledger[|ledger| - 1];
      if e.txId == t then rest + [e] else rest
  }

  // Credits minus debits.
  function Net(history: seq<Entry>): int {
    if history == [] then 0
    else
      var e := history[|history| - 1];
      Net(history[..|history| - 1]) + Signed(e.kind, e.amount)
  }

  function Replay(ledger: seq<Entry>, w: nat): int {
    Net(Of(ledger, w))
  }

  // The running balance recorded by the wallet's last entry; zero before the first.
  function LastAfter(ledger: seq<Entry>, w: nat): int {
    if ledger == [] then 0
    else
      var e := ledger[|ledger| - 1];
      if e.walletId == w then e.balanceAfter else LastAfter(ledger[..|ledger| - 1], w)
  }

  // Each running balance is the one before it plus or minus the entry's amount.
  predicate Chained(ledger: seq<Entry>, w: nat) {
    forall i | 0 <= i < |ledger| && ledger[i].walletId == w ::
      ledger[i].balanceAfter == LastAfter(ledger[..i], w) + Signed(ledger[i].kind, ledger[i].amount)
  }

  lemma Append(ledger: seq<Entry>, e: Entry, w: nat)
    ensures Of(ledger + [e], w) == if e.walletId == w then Of(ledger, w) + [e] else Of(ledger, w)
    ensures Replay(ledger + [e], w)
         == Replay(ledger, w) + (if e.walletId == w then Signed(e.kind, e.amount) else 0)
    ensures LastAfter(ledger + [e], w) == if e.walletId == w then e.balanceAfter else LastAfter(ledger, w)
  {
    assert (ledger + [e])[..|ledger|] == ledger;
    assert (Of(ledger, w) + [e])[..|Of(ledger, w)|] == Of(ledger, w);
  }

  lemma AppendWritten(ledger: seq<Entry>, e: Entry, t: nat)
    ensures Written(ledger + [e], t) == if e.txId == t then Written(ledger, t) + [e] else Written(ledger, t)
  {
    assert (ledger + [e])[..|ledger|] == ledger;
  }

  lemma AppendChained(ledger: seq<Entry>, e: Entry, w: nat)
    requires Chained(ledger, w)
    requires e.walletId == w ==> e.balanceAfter == LastAfter(ledger, w) + Signed(e.kind, e.amount)
    ensures Chained(ledger + [e], w)
  {
    var longer := ledger + [e];
    assert longer[..|ledger|] == ledger;
    forall i | 0 <= i < |longer| && longer[i].walletId == w
      ensures longer[i].balanceAfter == LastAfter(longer[..i], w) + Signed(longer[i].kind, longer[i].amount)
    {
      if i < |ledger| {
        assert longer[..i] == ledger[..i];
      }
    }
  }

  lemma {:induction false} NoEntries(ledger: seq<Entry>, w: nat)
    requires forall e | e in ledger :: e.walletId != w
    ensures Of(ledger, w) == [] && LastAfter(ledger, w) == 0
  {
    if ledger != [] {
      NoEntries(ledger[..|ledger| - 1], w);
      assert ledger[|ledger| - 1] in ledger;
    }
  }

  lemma {:induction false} NothingWritten(ledger: seq<Entry>, t: nat)
    requires forall e | e in ledger :: e.txId != t
    ensures Written(ledger, t) == []
  {
    if ledger != [] {
      NothingWritten(ledger[..|ledger| - 1], t);
      assert ledger[|ledger| - 1] in ledger;
    }
  }

  /** The entries of a wallet are exactly the ledger's entries with its id. */
  lemma {:induction false} OfSelects(ledger: seq<Entry>, w: nat, e: Entry)
    ensures multiset(Of(ledger, w))[e] == if e.walletId == w then multiset(ledger)[e] else 0
  {
    if ledger != [] {
      var front, last := ledger[..|ledger| - 1], ledger[|ledger| - 1];
      OfSelects(front, w, e);
      assert ledger == front + [last];
      assert multiset(ledger) == multiset(front) + multiset{last};
    }
  }

  /** A chained ledger agrees with its own replay: the simple form and the fast form. */
  lemma {:induction false} ChainedIsReplay(ledger: seq<Entry>, w: nat)
    requires Chained(ledger, w)
    ensures LastAfter(ledger, w) == Replay(ledger, w)
  {
    if ledger != [] {
      var front, e := ledger[..|ledger| - 1], ledger[|ledger| - 1];
      forall i | 0 <= i < |front| && front[i].walletId == w
        ensures front[i].balanceAfter == LastAfter(front[..i], w) + Signed(front[i].kind, front[i].amount)
      {
        assert front[..i] == ledger[..i];
      }
      ChainedIsReplay(front, w);
      Append(front, e, w);
      assert front + [e] == ledger;
    }
  }

  lemma {:induction false} NetRemove(history: seq<Entry>, i: nat)
    requires i < |history|
    ensures Net(history) == Net(history[..i] + history[i + 1..]) + Signed(history[i].kind, history[i].amount)
    decreases |history|
  {
    var n := |history| - 1;
    if i == n {
      assert history[..i] + history[i + 1..] == history[..n];
    } else {
      var front := history[..n];
      var rest := history[..i] + history[i + 1..];
      NetRemove(front, i);
      assert rest[..n - 1] == front[..i] + front[i + 1..];
      assert rest[n - 1] == history[n];
    }
  }

  lemma MultisetRemove(history: seq<Entry>, i: nat)
    requires i < |history|
    ensures multiset(history[..i] + history[i + 1..]) == multiset(history) - multiset{history[i]}
  {
    assert history == history[..i] + [history[i]] + history[i + 1..];
  }

  /** Replay does not depend on the order of the history. */
  lemma {:induction false} ReplayIgnoresOrder(a: seq<Entry>, b: seq<Entry>)
    requires multiset(a) == multiset(b)
    ensures Net(a) == Net(b)
    decreases |a|
  {
    if a == [] {
      assert |multiset(b)| == 0;
    } else {
      var n := |a| - 1;
      assert a[n] in multiset(a);
      var i :| 0 <= i < |b| && b[i] == a[n];
      MultisetRemove(a, n);
      MultisetRemove(b, i);
      assert a[..n] + a[n + 1..] == a[..n];
      NetRemove(b, i);
      ReplayIgnoresOrder(a[..n], b[..i] + b[i + 1..]);
    }
  }

  /** calculateRunningBalance: a loop over the history, in whatever order the query
      returned it. */
  method CalculateRunningBalance(ledger: seq<Entry>, w: nat, history: seq<Entry>) returns (runningBalance: int)
    requires multiset(history) == multiset(Of(ledger, w))
    ensures runningBalance == Replay(ledger, w)
  {
    runningBalance := 0;
    var i := 0;
    while i < |history|
      invariant 0 <= i <= |history|
      invariant runningBalance == Net(history[..i])
    {
      var entry := history[i];
      if entry.kind == Credit {
        runningBalance := runningBalance + entry.amount;
      } else {
        runningBalance := runningBalance - entry.amount;
      }
      assert history[..i + 1][..i] == history[..i];
      i := i + 1;
    }
    assert history[..i] == history;
    ReplayIgnoresOrder(history, Of(ledger, w));
  }
}
