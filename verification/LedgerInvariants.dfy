/** What every reachable book keeps: balances are running sums, no viewer is ever overdrawn,
    each creator's accounts sum to zero, and each key is posted at most once. */
module LedgerInvariants {
  import opened Options
  import opened Sums
  import opened Ledger

  function Signed(e: Entry): int { if e.direction.Credit? then e.amount else -e.amount }

  /** Credits minus debits of account `a` over `entries`. */
  ghost function Running(entries: seq<Entry>, a: Account): int {
    if entries == [] then 0 else
      var rest, e := entries[..|entries| - 1], entries[|entries| - 1];
      Running(rest, a) + (if e.account == a then Signed(e) else 0)
  }

  ghost predicate DoubleEntry(book: Book) {
    && |book.entries| == 2 * |book.transactions|
    && forall i {:trigger book.transactions[i]} :: 0 <= i < |book.transactions| ==>
         PairFor(book.transactions[i].id, book.entries[2 * i], book.entries[2 * i + 1])
  }

  /** A transaction's two entries: equal positive amounts on two accounts of its creator. */
  ghost predicate PairFor(id: TxId, debit: Entry, credit: Entry) {
    && debit.tx == credit.tx == id
    && debit.direction.Debit? && credit.direction.Credit?
    && debit.amount == credit.amount > 0
    && debit.account != credit.account
    && debit.account.creator == credit.account.creator == id.creator
  }

  /** Every entry stores the running sum of its account at that point. */
  ghost predicate RunningBalances(book: Book) {
    forall k {:trigger book.entries[k]} :: 0 <= k < |book.entries| ==>
      book.entries[k].balanceAfter == Running(book.entries[..k + 1], book.entries[k].account)
  }

  /** Every account row holds the sum of its entries; an account without a row has none. */
  ghost predicate BalancesAreSums(book: Book) {
    forall a :: Running(book.entries, a) == BalanceOf(book.balances, a)
  }

  /** No viewer account is overdrawn at any point of the log. */
  ghost predicate NeverOverdrawn(book: Book) {
    forall k, a: Account {:trigger Running(book.entries[..k], a)} ::
      0 <= k <= |book.entries| && a.kind.Viewer? ==> Running(book.entries[..k], a) >= 0
  }

  ghost predicate KeysUnique(book: Book) {
    forall i, j :: 0 <= i < j < |book.transactions| ==> book.transactions[i].id != book.transactions[j].id
  }

  function Restrict(balances: map<Account, int>, creator: string): map<Account, int> {
    map a | a in balances && a.creator == creator :: balances[a]
  }

  ghost predicate ZeroSum(book: Book) {
    forall c :: Total(Restrict(book.balances, c)) == 0
  }

  ghost predicate Consistent(book: Book) {
    && DoubleEntry(book) && RunningBalances(book) && BalancesAreSums(book)
    && NeverOverdrawn(book) && KeysUnique(book) && ZeroSum(book)
  }

  /** A movement that `Step` may post on `book`. */
  ghost predicate Postable(book: Book, m: Movement) {
    && m.amount > 0 && m.source != m.target
    && m.source.creator == m.target.creator == m.tx.id.creator
    && !Recorded(book, m.tx.id)
    && (m.source.kind.Viewer? ==> BalanceOf(book.balances, m.source) >= m.amount)
  }

  lemma SuccessIsPostable(book: Book, call: Call)
    requires AnswerTo(book, call).Success?
    ensures Postable(book, MovementOf(call))
  {
  }

  lemma RunningExtend(entries: seq<Entry>, e: Entry, a: Account)
    ensures Running(entries + [e], a) == Running(entries, a) + (if e.account == a then Signed(e) else 0)
  {
  }

  /** The running sums after a posted movement: two entries appended, two accounts changed. */
  lemma RunningAfterPost(book: Book, m: Movement, a: Account)
    requires m.source != m.target
    ensures Running(Post(book, m).entries, a) == Running(book.entries, a)
            + (if a == m.target then m.amount else if a == m.source then -m.amount else 0)
    ensures Running(Post(book, m).entries[..|book.entries| + 1], a) == Running(book.entries, a)
            - (if a == m.source then m.amount else 0)
  {
    var before, after, n := book.entries, Post(book, m).entries, |book.entries|;
    RunningExtend(before, after[n], a);
    RunningExtend(before + [after[n]], after[n + 1], a);
    assert after[..n + 1] == before + [after[n]];
    assert after == after[..n + 1] + [after[n + 1]];
  }

  lemma PrefixKept(book: Book, m: Movement, k: nat)
    requires k <= |book.entries|
    ensures Post(book, m).entries[..k] == book.entries[..k]
  {
  }

  lemma PostKeepsPairs(book: Book, m: Movement)
    requires DoubleEntry(book) && KeysUnique(book) && Postable(book, m)
    ensures DoubleEntry(Post(book, m)) && KeysUnique(Post(book, m))
  {
  }

  lemma PostKeepsSums(book: Book, m: Movement)
    requires BalancesAreSums(book) && Postable(book, m)
    ensures BalancesAreSums(Post(book, m))
  {
    forall a ensures Running(Post(book, m).entries, a) == BalanceOf(Post(book, m).balances, a) {
      RunningAfterPost(book, m, a);
      assert Running(book.entries, a) == BalanceOf(book.balances, a);
    }
  }

  lemma PostKeepsRunning(book: Book, m: Movement)
    requires RunningBalances(book) && BalancesAreSums(book) && Postable(book, m)
    ensures RunningBalances(Post(book, m))
  {
    var after, n := Post(book, m), |book.entries|;
    forall k | 0 <= k < n + 2
      ensures after.entries[k].balanceAfter == Running(after.entries[..k + 1], after.entries[k].account)
    {
      if k < n {
        PrefixKept(book, m, k + 1);
        assert after.entries[k] == book.entries[k];
      } else if k == n {
        RunningAfterPost(book, m, m.source);
        assert Running(book.entries, m.source) == BalanceOf(book.balances, m.source);
      } else {
        assert after.entries[..n + 2] == after.entries;
        RunningAfterPost(book, m, m.target);
        assert Running(book.entries, m.target) == BalanceOf(book.balances, m.target);
      }
    }
  }

  lemma PostKeepsSolvency(book: Book, m: Movement)
    requires BalancesAreSums(book) && NeverOverdrawn(book) && Postable(book, m)
    ensures NeverOverdrawn(Post(book, m))
  {
    var after, n := Post(book, m), |book.entries|;
    forall k, a: Account | 0 <= k <= n + 2 && a.kind.Viewer?
      ensures Running(after.entries[..k], a) >= 0
    {
      if k <= n {
        PrefixKept(book, m, k);
        assert Running(book.entries[..k], a) >= 0;
      } else {
        assert book.entries[..n] == book.entries;
        assert Running(book.entries[..n], a) >= 0;
        assert Running(book.entries, a) == BalanceOf(book.balances, a);
        RunningAfterPost(book, m, a);
        assert after.entries[..n + 2] == after.entries;
      }
    }
  }

  /** Updating two accounts of one creator updates that creator's rows and no other's. */
  lemma RestrictUpdate(balances: map<Account, int>, s: Account, t: Account, x: int, y: int, c: string)
    requires s.creator == t.creator
    ensures Restrict(balances[s := x][t := y], c)
            == if s.creator == c then Restrict(balances, c)[s := x][t := y] else Restrict(balances, c)
  {
  }

  lemma PostKeepsZeroSum(book: Book, m: Movement, c: string)
    requires Postable(book, m)
    ensures Total(Restrict(Post(book, m).balances, c)) == Total(Restrict(book.balances, c))
    ensures c != m.tx.id.creator ==> Restrict(Post(book, m).balances, c) == Restrict(book.balances, c)
  {
    var before := Restrict(book.balances, c);
    var left := BalanceOf(book.balances, m.source) - m.amount;
    var grown := BalanceOf(book.balances, m.target) + m.amount;
    RestrictUpdate(book.balances, m.source, m.target, left, grown, c);
    if c == m.tx.id.creator {
      TotalUpdate(before, m.source, left);
      TotalUpdate(before[m.source := left], m.target, grown);
    }
  }

  lemma StepKeepsConsistent(book: Book, call: Call)
    requires Consistent(book)
    ensures Consistent(Step(book, call))
  {
    if AnswerTo(book, call).Success? {
      var m := MovementOf(call);
      SuccessIsPostable(book, call);
      PostKeepsPairs(book, m);
      PostKeepsSums(book, m);
      PostKeepsRunning(book, m);
      PostKeepsSolvency(book, m);
      forall c ensures Total(Restrict(Post(book, m).balances, c)) == 0 {
        PostKeepsZeroSum(book, m, c);
      }
    }
  }

  /** Main result: every book reachable from the empty one is consistent. */
  lemma {:induction false} EveryRunIsConsistent(calls: seq<Call>)
    ensures Consistent(Run(EMPTY_BOOK, calls))
    decreases |calls|
  {
    if calls == [] {
      forall c ensures Total(Restrict(EMPTY_BOOK.balances, c)) == 0 {
        assert Restrict(EMPTY_BOOK.balances, c) == map[];
      }
    } else {
      EveryRunIsConsistent(calls[..|calls| - 1]);
      StepKeepsConsistent(Run(EMPTY_BOOK, calls[..|calls| - 1]), calls[|calls| - 1]);
    }
  }
}
