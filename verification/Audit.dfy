/** The integrity audits over the ledger tables, and their agreement with the writer. */
module Audit {
  import opened Options
  import opened Sequences
  import opened Ledger
  import opened LedgerInvariants

  /** One row of the query grouped by transaction. */
  datatype Row = Row(tx: TxId, debits: int, credits: int)

  datatype LedgerStats = LedgerStats(audited: nat, imbalanced: nat, debits: int, credits: int)

  datatype BalanceViolation = BalanceViolation(account: Account, balance: int)

  datatype BalanceStats = BalanceStats(audited: nat, negative: nat)

  function OfTx(id: TxId): Entry -> bool { (e: Entry) => e.tx == id }

  /** The sum of all amounts entered in one direction. */
  function Amount(entries: seq<Entry>, d: Direction): int {
    if entries == [] then 0
    else (if entries[0].direction == d then entries[0].amount else 0) + Amount(entries[1..], d)
  }

  /** `rows` answers the grouped query over `entries`, in whatever order the database picked. */
  ghost predicate IsGrouping(entries: seq<Entry>, rows: seq<Row>) {
    && (forall i, j :: 0 <= i < j < |rows| ==> rows[i].tx != rows[j].tx)
    && (forall k {:trigger HasRow(rows, entries[k].tx)} :: 0 <= k < |entries| ==> HasRow(rows, entries[k].tx))
    && (forall i {:trigger IsGroup(entries, rows[i])} :: 0 <= i < |rows| ==> IsGroup(entries, rows[i]))
  }

  ghost predicate HasRow(rows: seq<Row>, id: TxId) {
    exists i :: 0 <= i < |rows| && rows[i].tx == id
  }

  ghost predicate IsGroup(entries: seq<Entry>, row: Row) {
    var own := Keep(entries, OfTx(row.tx));
    own != [] && row.debits == Amount(own, Debit) && row.credits == Amount(own, Credit)
  }

  predicate Imbalanced(row: Row) { row.debits != row.credits }

  function RowTotals(rows: seq<Row>): (int, int) {
    if rows == [] then (0, 0) else
      var rest := RowTotals(rows[..|rows| - 1]);
      (rest.0 + rows[|rows| - 1].debits, rest.1 + rows[|rows| - 1].credits)
  }

  /** The audit loop. Its global totals are the plain sums over the whole table, and it reports
      exactly the rows whose two sums differ. */
  method AuditEconomyLedger(ghost entries: seq<Entry>, rows: seq<Row>)
    returns (violations: seq<Row>, stats: LedgerStats)
    requires IsGrouping(entries, rows)
    ensures violations == Keep(rows, Imbalanced)
    ensures forall row :: row in violations <==> row in rows && row.debits != row.credits
    ensures stats.audited == |rows| && stats.imbalanced == |violations|
    ensures stats.debits == Amount(entries, Debit) && stats.credits == Amount(entries, Credit)
  {
    AllTotals(entries, rows);
    violations := [];
    var imbalanced, debits, credits := 0, 0, 0;
    for i := 0 to |rows|
      invariant violations == Keep(rows[..i], Imbalanced) && imbalanced == |violations|
      invariant (debits, credits) == RowTotals(rows[..i])
    {
      OneMoreRow(rows, i);
      debits := debits + rows[i].debits;
      credits := credits + rows[i].credits;
      if rows[i].debits != rows[i].credits {
        imbalanced := imbalanced + 1;
        violations := violations + [rows[i]];
      }
    }
    assert rows[..|rows|] == rows;
    KeepsExactly(rows);
    stats := LedgerStats(|rows|, imbalanced, debits, credits);
  }

  /** The rows reported are those whose two sums differ, and no others. */
  lemma {:induction false} KeepsExactly(rows: seq<Row>)
    ensures forall row :: row in Keep(rows, Imbalanced) <==> row in rows && row.debits != row.credits
  {
    if rows != [] {
      KeepsExactly(rows[1..]);
    }
  }

  lemma OneMoreRow(rows: seq<Row>, i: nat)
    requires i < |rows|
    ensures Keep(rows[..i + 1], Imbalanced)
            == Keep(rows[..i], Imbalanced) + (if Imbalanced(rows[i]) then [rows[i]] else [])
    ensures RowTotals(rows[..i + 1])
            == (RowTotals(rows[..i]).0 + rows[i].debits, RowTotals(rows[..i]).1 + rows[i].credits)
  {
    assert rows[..i + 1] == rows[..i] + [rows[i]];
    KeepAppend(rows[..i], [rows[i]], Imbalanced);
  }

  ghost function FirstIds(rows: seq<Row>, n: nat): set<TxId>
    requires n <= |rows|
  {
    set i | 0 <= i < n :: rows[i].tx
  }

  /** The first `n` rows add up to the amounts of their transactions' entries. */
  lemma {:induction false} GroupTotals(entries: seq<Entry>, rows: seq<Row>, n: nat)
    requires IsGrouping(entries, rows) && n <= |rows|
    ensures var own := Keep(entries, OfAny(FirstIds(rows, n)));
            RowTotals(rows[..n]) == (Amount(own, Debit), Amount(own, Credit))
  {
    if n == 0 {
      assert FirstIds(rows, 0) == {};
      NothingSeen(entries);
    } else {
      GroupTotals(entries, rows, n - 1);
      assert IsGroup(entries, rows[n - 1]);
      assert FirstIds(rows, n) == FirstIds(rows, n - 1) + {rows[n - 1].tx};
      AmountOfOneMore(entries, FirstIds(rows, n - 1), rows[n - 1].tx, Debit);
      AmountOfOneMore(entries, FirstIds(rows, n - 1), rows[n - 1].tx, Credit);
      assert rows[..n][..n - 1] == rows[..n - 1];
    }
  }

  /** Whatever the order of the groups, their sums add up to the sums over the ungrouped table. */
  lemma AllTotals(entries: seq<Entry>, rows: seq<Row>)
    requires IsGrouping(entries, rows)
    ensures RowTotals(rows) == (Amount(entries, Debit), Amount(entries, Credit))
  {
    GroupTotals(entries, rows, |rows|);
    assert rows[..|rows|] == rows;
    forall k | 0 <= k < |entries| ensures entries[k].tx in FirstIds(rows, |rows|) {
      assert HasRow(rows, entries[k].tx);
    }
    EverythingSeen(entries, FirstIds(rows, |rows|));
  }

  function OfAny(ids: set<TxId>): Entry -> bool { (e: Entry) => e.tx in ids }

  lemma {:induction false} NothingSeen(entries: seq<Entry>)
    ensures Keep(entries, OfAny({})) == []
  {
    if entries != [] {
      NothingSeen(entries[1..]);
    }
  }

  lemma {:induction false} EverythingSeen(entries: seq<Entry>, seen: set<TxId>)
    requires forall k :: 0 <= k < |entries| ==> entries[k].tx in seen
    ensures Keep(entries, OfAny(seen)) == entries
  {
    if entries != [] {
      EverythingSeen(entries[1..], seen);
    }
  }

  /** Groups partition the table: adding one group adds its own amounts and nothing else. */
  lemma {:induction false} AmountOfOneMore(entries: seq<Entry>, seen: set<TxId>, id: TxId, d: Direction)
    requires id !in seen
    ensures Amount(Keep(entries, OfAny(seen + {id})), d)
            == Amount(Keep(entries, OfAny(seen)), d) + Amount(Keep(entries, OfTx(id)), d)
  {
    if entries != [] {
      AmountOfOneMore(entries[1..], seen, id, d);
    }
  }

  /** The check of a single transaction: it has entries, and they balance at a positive sum. */
  function VerifyLedgerIntegrity(entries: seq<Entry>, id: TxId): bool {
    var own := Keep(entries, OfTx(id));
    var credits, debits := Amount(own, Credit), Amount(own, Debit);
    own != [] && credits == debits && credits > 0
  }

  /** `negative` answers the query for overdrawn viewer rows, in whatever order the database picked. */
  ghost predicate IsOverdrawn(balances: map<Account, int>, negative: seq<Account>) {
    && (forall i, j :: 0 <= i < j < |negative| ==> negative[i] != negative[j])
    && (forall a :: a in negative <==> a in balances && a.kind.Viewer? && balances[a] < 0)
  }

  /** One violation for each overdrawn viewer row and no other, next to the counts of both. */
  method AuditAccountBalances(balances: map<Account, int>, negative: seq<Account>)
    returns (violations: seq<BalanceViolation>, stats: BalanceStats)
    requires IsOverdrawn(balances, negative)
    ensures |violations| == |negative| && stats == BalanceStats(|balances|, |negative|)
    ensures forall i :: 0 <= i < |negative| ==> violations[i] == BalanceViolation(negative[i], balances[negative[i]])
    ensures forall i, j :: 0 <= i < j < |violations| ==> violations[i].account != violations[j].account
    ensures forall a, n :: BalanceViolation(a, n) in violations <==>
              a in balances && a.kind.Viewer? && balances[a] == n < 0
  {
    violations := [];
    for i := 0 to |negative|
      invariant |violations| == i
      invariant forall j :: 0 <= j < i ==> violations[j] == BalanceViolation(negative[j], balances[negative[j]])
    {
      violations := violations + [BalanceViolation(negative[i], balances[negative[i]])];
    }
    stats := BalanceStats(|balances|, |negative|);
    ghost var found := violations;
    forall a | a in negative ensures BalanceViolation(a, balances[a]) in found {
      var i :| 0 <= i < |negative| && negative[i] == a;
      assert found[i] == BalanceViolation(a, balances[a]);
    }
  }

  // ----- agreement with the writer -----

  /** In a double-entry book, the rows of a transaction are exactly its pair. */
  lemma {:induction false} OwnRowsAreThePair(book: Book, n: nat, id: TxId)
    requires DoubleEntry(book) && KeysUnique(book) && n <= |book.transactions|
    ensures (forall i :: 0 <= i < n ==> book.transactions[i].id != id) ==>
              Keep(book.entries[..2 * n], OfTx(id)) == []
    ensures forall i :: 0 <= i < n && book.transactions[i].id == id ==>
              Keep(book.entries[..2 * n], OfTx(id)) == [book.entries[2 * i], book.entries[2 * i + 1]]
  {
    if n > 0 {
      var before, d, c := book.entries[..2 * n - 2], book.entries[2 * n - 2], book.entries[2 * n - 1];
      OwnRowsAreThePair(book, n - 1, id);
      assert book.entries[..2 * n] == before + ([d] + [c]);
      KeepAppend(before, [d] + [c], OfTx(id));
      KeepAppend([d], [c], OfTx(id));
      assert PairFor(book.transactions[n - 1].id, d, c) by {
        assert book.entries[2 * (n - 1)] == d && book.entries[2 * (n - 1) + 1] == c;
      }
    }
  }

  lemma AmountOfOne(e: Entry, d: Direction)
    ensures Amount([e], d) == if e.direction == d then e.amount else 0
  {
    var one := [e];
    assert one[1..] == [];
    assert Amount(one[1..], d) == 0;
  }

  lemma PairAmounts(id: TxId, debit: Entry, credit: Entry)
    requires PairFor(id, debit, credit)
    ensures Amount([debit, credit], Debit) == Amount([debit, credit], Credit) == debit.amount
  {
    assert [debit, credit] == [debit] + [credit];
    forall d: Direction ensures Amount([debit, credit], d) == debit.amount {
      AmountAppend([debit], [credit], d);
      AmountOfOne(debit, d);
      AmountOfOne(credit, d);
    }
  }

  lemma OwnRowsBalance(book: Book, id: TxId)
    requires DoubleEntry(book) && KeysUnique(book)
    ensures var own := Keep(book.entries, OfTx(id));
            if Recorded(book, id) then own != [] && Amount(own, Debit) == Amount(own, Credit) > 0 else own == []
  {
    var n := |book.transactions|;
    OwnRowsAreThePair(book, n, id);
    assert book.entries[..2 * n] == book.entries;
    if Recorded(book, id) {
      var t := Lookup(book.transactions, id).value;
      var i :| 0 <= i < n && book.transactions[i] == t;
      assert PairFor(id, book.entries[2 * i], book.entries[2 * i + 1]);
      PairAmounts(id, book.entries[2 * i], book.entries[2 * i + 1]);
    } else {
      forall i | 0 <= i < n ensures book.transactions[i].id != id {
        assert book.transactions[i] in book.transactions;
      }
    }
  }

  /** The check of a single transaction looks at the sums: of a debit and a credit it accepts equal positive ones. */
  lemma IntegrityComparesSums(id: TxId, debit: Entry, credit: Entry, others: seq<Entry>)
    requires debit.tx == credit.tx == id && debit.direction.Debit? && credit.direction.Credit?
    requires forall i :: 0 <= i < |others| ==> others[i].tx != id
    ensures VerifyLedgerIntegrity(others + [debit] + [credit], id) <==> debit.amount == credit.amount > 0
    ensures !VerifyLedgerIntegrity(others, id) && (debit.amount > 0 ==> !VerifyLedgerIntegrity(others + [debit], id))
  {
    NoneOfTx(others, id);
    KeepAppend(others, [debit], OfTx(id));
    KeepAppend(others + [debit], [credit], OfTx(id));
    assert Keep([debit], OfTx(id)) == [debit] && Keep([credit], OfTx(id)) == [credit];
    assert Keep(others + [debit], OfTx(id)) == [debit];
    assert Keep(others + [debit] + [credit], OfTx(id)) == [debit] + [credit];
    forall d: Direction ensures Amount([debit] + [credit], d) == if d.Debit? then debit.amount else credit.amount {
      AmountAppend([debit], [credit], d);
      AmountOfOne(debit, d);
      AmountOfOne(credit, d);
    }
    AmountOfOne(debit, Debit);
    AmountOfOne(debit, Credit);
  }

  lemma {:induction false} NoneOfTx(entries: seq<Entry>, id: TxId)
    requires forall i :: 0 <= i < |entries| ==> entries[i].tx != id
    ensures Keep(entries, OfTx(id)) == []
  {
    if entries != [] {
      NoneOfTx(entries[1..], id);
    }
  }

  /** A transaction of any table is reported exactly when its debits and credits differ. */
  lemma ReportedIffUnequal(entries: seq<Entry>, rows: seq<Row>, id: TxId)
    requires IsGrouping(entries, rows)
    ensures (exists row :: row in Keep(rows, Imbalanced) && row.tx == id)
            <==> Amount(Keep(entries, OfTx(id)), Debit) != Amount(Keep(entries, OfTx(id)), Credit)
  {
    KeepsExactly(rows);
    if row :| row in Keep(rows, Imbalanced) && row.tx == id {
      var i :| 0 <= i < |rows| && rows[i] == row;
      assert IsGroup(entries, rows[i]);
    }
    if Amount(Keep(entries, OfTx(id)), Debit) != Amount(Keep(entries, OfTx(id)), Credit) {
      NotEmptyHasEntry(entries, id);
      var k :| 0 <= k < |entries| && entries[k].tx == id;
      assert HasRow(rows, entries[k].tx);
      var i :| 0 <= i < |rows| && rows[i].tx == id;
      assert IsGroup(entries, rows[i]) && rows[i] in rows;
    }
  }

  lemma {:induction false} NotEmptyHasEntry(entries: seq<Entry>, id: TxId)
    ensures Keep(entries, OfTx(id)) != [] ==> exists k :: 0 <= k < |entries| && entries[k].tx == id
  {
    if entries != [] {
      NotEmptyHasEntry(entries[1..], id);
      if entries[0].tx != id && Keep(entries, OfTx(id)) != [] {
        var k :| 0 <= k < |entries| - 1 && entries[1..][k].tx == id;
        assert entries[k + 1].tx == id;
      }
    }
  }

  /** Main result: on every reachable book the single-transaction check holds exactly for recorded
      ids. */
  lemma IntegrityMeansRecorded(calls: seq<Call>, id: TxId)
    ensures VerifyLedgerIntegrity(Run(EMPTY_BOOK, calls).entries, id) <==> Recorded(Run(EMPTY_BOOK, calls), id)
  {
    EveryRunIsConsistent(calls);
    OwnRowsBalance(Run(EMPTY_BOOK, calls), id);
  }

  /** Main result: on every reachable book both audits come back clean, and the two global totals
      agree with each other. */
  lemma AuditsAgreeWithWriter(calls: seq<Call>, rows: seq<Row>)
    requires IsGrouping(Run(EMPTY_BOOK, calls).entries, rows)
    ensures Keep(rows, Imbalanced) == []
    ensures Amount(Run(EMPTY_BOOK, calls).entries, Debit) == Amount(Run(EMPTY_BOOK, calls).entries, Credit)
    ensures var balances := Run(EMPTY_BOOK, calls).balances;
            forall a :: a in balances && a.kind.Viewer? ==> balances[a] >= 0
  {
    var book := Run(EMPTY_BOOK, calls);
    EveryRunIsConsistent(calls);
    assert book.entries[..|book.entries|] == book.entries;
    forall i | 0 <= i < |rows| ensures !Imbalanced(rows[i]) {
      assert IsGroup(book.entries, rows[i]);
      OwnRowsBalance(book, rows[i].tx);
    }
    NoneKept(rows);
    TotalsAgree(book, |book.transactions|);
    forall a | a in book.balances && a.kind.Viewer? ensures book.balances[a] >= 0 {
      assert Running(book.entries[..|book.entries|], a) >= 0;
    }
  }

  lemma {:induction false} NoneKept(rows: seq<Row>)
    requires forall i :: 0 <= i < |rows| ==> !Imbalanced(rows[i])
    ensures Keep(rows, Imbalanced) == []
  {
    if rows != [] {
      NoneKept(rows[1..]);
    }
  }

  /** A double-entry table debits as much as it credits. */
  lemma {:induction false} TotalsAgree(book: Book, n: nat)
    requires DoubleEntry(book) && n <= |book.transactions|
    ensures Amount(book.entries[..2 * n], Debit) == Amount(book.entries[..2 * n], Credit)
  {
    if n > 0 {
      var before, d, c := book.entries[..2 * n - 2], book.entries[2 * n - 2], book.entries[2 * n - 1];
      TotalsAgree(book, n - 1);
      assert PairFor(book.transactions[n - 1].id, book.entries[2 * (n - 1)], book.entries[2 * (n - 1) + 1]);
      PairAmounts(book.transactions[n - 1].id, d, c);
      AmountAppend(before, [d, c], Debit);
      AmountAppend(before, [d, c], Credit);
      assert book.entries[..2 * n] == before + [d, c];
    }
  }

  lemma {:induction false} AmountAppend(s: seq<Entry>, t: seq<Entry>, d: Direction)
    ensures Amount(s + t, d) == Amount(s, d) + Amount(t, d)
  {
    if s == [] {
      assert s + t == t;
    } else {
      AmountAppend(s[1..], t, d);
      assert (s + t)[1..] == s[1..] + t;
    }
  }
}
