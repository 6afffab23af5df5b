/** Idempotency and tenant isolation as equivalences between whole runs. */
module LedgerReplay {
  import opened Options
  import opened Sequences
  import opened Ledger
  import opened LedgerInvariants

  function IdOf(call: Call): TxId { MovementOf(call).tx.id }

  /** The calls of a run that were posted: every duplicate and every failing call is left out. */
  function Effective(book: Book, calls: seq<Call>): seq<Call>
    decreases |calls|
  {
    if calls == [] then [] else
      var before, last := calls[..|calls| - 1], calls[|calls| - 1];
      if AnswerTo(Run(book, before), last).Success?
      then Effective(book, before) + [last]
      else Effective(book, before)
  }

  function TransactionsOf(calls: seq<Call>): seq<Transaction> {
    seq(|calls|, i requires 0 <= i < |calls| => MovementOf(calls[i]).tx)
  }

  lemma RunExtend(book: Book, calls: seq<Call>, call: Call)
    ensures Run(book, calls + [call]) == Step(Run(book, calls), call)
  {
  }

  lemma {:induction false} RunSplit(book: Book, first: seq<Call>, second: seq<Call>)
    ensures Run(book, first + second) == Run(Run(book, first), second)
    decreases |second|
  {
    if second == [] {
      assert first + second == first;
    } else {
      var n := |second| - 1;
      RunSplit(book, first, second[..n]);
      RunExtend(book, first + second[..n], second[n]);
      RunExtend(Run(book, first), second[..n], second[n]);
      assert second == second[..n] + [second[n]];
      assert first + second == (first + second[..n]) + [second[n]];
    }
  }

  /** Main result: a run and its effective calls alone leave the same book. */
  lemma {:induction false} EffectiveRunIsTheSame(book: Book, calls: seq<Call>)
    ensures Run(book, Effective(book, calls)) == Run(book, calls)
    decreases |calls|
  {
    if calls != [] {
      var before, last := calls[..|calls| - 1], calls[|calls| - 1];
      EffectiveRunIsTheSame(book, before);
      RunExtend(book, Effective(book, before), last);
    }
  }

  /** The transaction table is exactly the effective calls, in order. */
  lemma {:induction false} LogIsEffectiveCalls(book: Book, calls: seq<Call>)
    ensures Run(book, calls).transactions == book.transactions + TransactionsOf(Effective(book, calls))
    decreases |calls|
  {
    if calls != [] {
      LogIsEffectiveCalls(book, calls[..|calls| - 1]);
    }
  }

  lemma {:induction false} RecordedStays(book: Book, calls: seq<Call>, id: TxId)
    requires Recorded(book, id)
    ensures Recorded(Run(book, calls), id)
    decreases |calls|
  {
    if calls != [] {
      var before := Run(book, calls[..|calls| - 1]);
      RecordedStays(book, calls[..|calls| - 1], id);
      var t := Lookup(before.transactions, id).value;
      assert t in Step(before, calls[|calls| - 1]).transactions;
    }
  }

  /** A redelivered call, even with other arguments, changes nothing once its key is recorded:
      wherever it is inserted, the run ends in the same book. */
  lemma ReplayIsAbsorbed(book: Book, before: seq<Call>, between: seq<Call>, replay: Call, after: seq<Call>)
    requires Recorded(Run(book, before), IdOf(replay))
    ensures Run(book, before + between + [replay] + after) == Run(book, before + between + after)
    ensures !AnswerTo(Run(book, before + between), replay).Success?
  {
    RunSplit(book, before, between);
    RecordedStays(Run(book, before), between, IdOf(replay));
    RunExtend(book, before + between, replay);
    RunSplit(book, before + between + [replay], after);
    RunSplit(book, before + between, after);
  }

  /** Redelivering any batch of recorded calls, in any order and number, is a no-op. */
  lemma {:induction false} RedeliveryIsNoop(book: Book, calls: seq<Call>)
    requires forall i :: 0 <= i < |calls| ==> Recorded(book, IdOf(calls[i]))
    ensures Run(book, calls) == book
    decreases |calls|
  {
    if calls != [] {
      RedeliveryIsNoop(book, calls[..|calls| - 1]);
      assert Recorded(book, IdOf(calls[|calls| - 1]));
    }
  }

  /** A call reports success exactly when its key is recorded afterwards and its arguments pass
      the two argument checks; so a retry of a successful call succeeds without moving coins. */
  lemma OkMeansRecorded(book: Book, call: Call)
    ensures AnswerTo(book, call).Ok() <==>
            Recorded(Step(book, call), IdOf(call)) && MovementOf(call).amount > 0
            && MovementOf(call).source != MovementOf(call).target
  {
  }

  // ----- tenant isolation -----

  function OwnTransaction(c: string): Transaction -> bool { (t: Transaction) => t.id.creator == c }

  function OwnEntry(c: string): Entry -> bool { (e: Entry) => e.tx.creator == c }

  function OwnCall(c: string): Call -> bool { (call: Call) => IdOf(call).creator == c }

  /** The rows of one creator. */
  function Project(book: Book, c: string): Book {
    Book(Restrict(book.balances, c),
         Keep(book.transactions, OwnTransaction(c)),
         Keep(book.entries, OwnEntry(c)))
  }

  function CallsOf(calls: seq<Call>, c: string): seq<Call> {
    Keep(calls, OwnCall(c))
  }

  lemma {:induction false} LookupInOwnRows(transactions: seq<Transaction>, id: TxId)
    ensures Lookup(Keep(transactions, OwnTransaction(id.creator)), id) == Lookup(transactions, id)
  {
    if transactions != [] {
      LookupInOwnRows(transactions[1..], id);
    }
  }

  /** Appending a movement's rows keeps them all for its own creator and none for another. */
  lemma RowsOfPost(book: Book, m: Movement, left: int, grown: int, c: string)
    ensures Keep(book.transactions + [m.tx], OwnTransaction(c))
            == Keep(book.transactions, OwnTransaction(c)) + (if m.tx.id.creator == c then [m.tx] else [])
    ensures Keep(book.entries + EntriesOf(m, left, grown), OwnEntry(c))
            == Keep(book.entries, OwnEntry(c)) + (if m.tx.id.creator == c then EntriesOf(m, left, grown) else [])
  {
    var pair := EntriesOf(m, left, grown);
    KeepAppend(book.transactions, [m.tx], OwnTransaction(c));
    KeepAppend(book.entries, pair, OwnEntry(c));
    KeepAppend([pair[0]], [pair[1]], OwnEntry(c));
    assert pair == [pair[0]] + [pair[1]];
  }

  lemma BalancesOfOwn(balances: map<Account, int>, a: Account)
    ensures BalanceOf(Restrict(balances, a.creator), a) == BalanceOf(balances, a)
  {
  }

  lemma PostIsLocal(book: Book, m: Movement, c: string)
    requires m.source.creator == m.target.creator == m.tx.id.creator
    ensures Project(Post(book, m), c)
            == if m.tx.id.creator == c then Post(Project(book, c), m) else Project(book, c)
  {
    var left := BalanceOf(book.balances, m.source) - m.amount;
    var grown := BalanceOf(book.balances, m.target) + m.amount;
    BalancesOfOwn(book.balances, m.source);
    BalancesOfOwn(book.balances, m.target);
    RestrictUpdate(book.balances, m.source, m.target, left, grown, c);
    assert Project(Post(book, m), c).transactions
        == Keep(book.transactions, OwnTransaction(c)) + (if m.tx.id.creator == c then [m.tx] else []) by {
      RowsOfPost(book, m, left, grown, c);
    }
    assert Project(Post(book, m), c).entries
        == Keep(book.entries, OwnEntry(c)) + (if m.tx.id.creator == c then EntriesOf(m, left, grown) else []) by {
      RowsOfPost(book, m, left, grown, c);
    }
  }

  lemma OwnStepIsLocal(book: Book, call: Call)
    ensures AnswerTo(Project(book, IdOf(call).creator), call) == AnswerTo(book, call)
    ensures Project(Step(book, call), IdOf(call).creator) == Step(Project(book, IdOf(call).creator), call)
  {
    LookupInOwnRows(book.transactions, IdOf(call));
    if AnswerTo(book, call).Success? {
      PostIsLocal(book, MovementOf(call), IdOf(call).creator);
    }
  }

  lemma OtherStepIsInvisible(book: Book, call: Call, c: string)
    requires IdOf(call).creator != c
    ensures Project(Step(book, call), c) == Project(book, c)
  {
    if AnswerTo(book, call).Success? {
      PostIsLocal(book, MovementOf(call), c);
    }
  }

  /** Main result: what creator `c` sees after any mixed run is what it would see had only its own
      calls been made. */
  lemma {:induction false} CreatorsAreIsolated(book: Book, calls: seq<Call>, c: string)
    ensures Project(Run(book, calls), c) == Run(Project(book, c), CallsOf(calls, c))
    decreases |calls|
  {
    if calls != [] {
      var before, last := calls[..|calls| - 1], calls[|calls| - 1];
      CreatorsAreIsolated(book, before, c);
      KeepAppend(before, [last], OwnCall(c));
      assert calls == before + [last];
      if IdOf(last).creator == c {
        OwnStepIsLocal(Run(book, before), last);
        RunExtend(Project(book, c), CallsOf(before, c), last);
      } else {
        OtherStepIsInvisible(Run(book, before), last, c);
        assert CallsOf(calls, c) == CallsOf(before, c);
      }
    }
  }
}
