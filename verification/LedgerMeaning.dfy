/** What each call answers and does, in terms of the three tables alone. */
module LedgerMeaning {
  import opened Options
  import opened Ledger

  /** The table has a transaction of this creator under this key. */
  predicate Has(book: Book, creator: string, key: string) {
    exists t :: t in book.transactions && t.id == TxId(creator, key)
  }

  function Coins(book: Book, a: Account): int { if a in book.balances then book.balances[a] else 0 }

  lemma HasIsRecorded(book: Book, creator: string, key: string)
    ensures Recorded(book, TxId(creator, key)) <==> Has(book, creator, key)
  {
  }

  /** `amount` coins went from one account to the other under one new transaction, and nothing else changed. */
  ghost predicate Moved(book: Book, after: Book, source: Account, target: Account, amount: int, t: Transaction) {
    && Coins(after, source) == Coins(book, source) - amount
    && Coins(after, target) == Coins(book, target) + amount
    && (forall a :: a != source && a != target ==> Coins(after, a) == Coins(book, a))
    && after.balances.Keys == book.balances.Keys + {source, target}
    && after.transactions == book.transactions + [t]
    && after.entries == book.entries + [Entry(t.id, source, Debit, amount, Coins(after, source)),
                                        Entry(t.id, target, Credit, amount, Coins(after, target))]
  }

  // ----- with a key -----

  /** An earn with its own key is skipped exactly when the table has that key, and succeeds otherwise: coins go from
      the mint to the viewer. */
  lemma EarnByKey(book: Book, creator: string, viewer: string, amount: int, reason: string, key: string)
    requires key != ""
    ensures var call := Earn(creator, viewer, amount, reason, Some(key));
            var answer, after := AnswerTo(book, call), Step(book, call);
            && (answer.InvalidAmount? <==> amount <= 0)
            && (answer.DuplicateSkipped? <==> amount > 0 && Has(book, creator, key))
            && (answer.Success? <==> amount > 0 && !Has(book, creator, key))
            && (answer.Success? ==>
                  && Has(after, creator, key)
                  && Moved(book, after, Account(creator, "__system_mint__", SystemMint),
                           Account(creator, viewer, Viewer), amount,
                           Transaction(TxId(creator, key), RewardTx, reason)))
            && (!answer.Success? ==> after == book)
  {
    HasIsRecorded(book, creator, key);
    if amount > 0 && !Has(book, creator, key) {
      NewIsLast(book, Earn(creator, viewer, amount, reason, Some(key)));
    }
  }

  lemma NewIsLast(book: Book, call: Call)
    requires AnswerTo(book, call).Success?
    ensures MovementOf(call).tx in Step(book, call).transactions
  {
    var after := Step(book, call).transactions;
    assert after[|after| - 1] == MovementOf(call).tx;
  }

  /** A grant by a moderator likewise, under a reason that names them. */
  lemma GiveByKey(book: Book, creator: string, admin: string, viewer: string, amount: int, reason: string, key: string)
    requires key != ""
    ensures var call := Give(creator, admin, viewer, amount, reason, Some(key));
            var answer, after := AnswerTo(book, call), Step(book, call);
            && (answer.InvalidAmount? <==> amount <= 0)
            && (answer.DuplicateSkipped? <==> amount > 0 && Has(book, creator, key))
            && (answer.Success? <==> amount > 0 && !Has(book, creator, key))
            && (answer.Success? ==>
                  && Has(after, creator, key)
                  && Moved(book, after, Account(creator, "__system_mint__", SystemMint),
                           Account(creator, viewer, Viewer), amount,
                           Transaction(TxId(creator, key), RewardTx, "Admin grant by " + admin + ": " + reason)))
            && (!answer.Success? ==> after == book)
  {
    HasIsRecorded(book, creator, key);
    if amount > 0 && !Has(book, creator, key) {
      NewIsLast(book, Give(creator, admin, viewer, amount, reason, Some(key)));
    }
  }

  /** A spend with its own key: the duplicate check comes before the funds check, and the exact balance suffices. */
  lemma SpendByKey(book: Book, creator: string, viewer: string, amount: int, reason: string, key: string)
    requires key != ""
    ensures var call := Spend(creator, viewer, amount, reason, Some(key));
            var answer, after := AnswerTo(book, call), Step(book, call);
            var payer := Account(creator, viewer, Viewer);
            && (answer.InvalidAmount? <==> amount <= 0)
            && (answer.DuplicateSkipped? <==> amount > 0 && Has(book, creator, key))
            && (answer == InsufficientFunds(amount, Coins(book, payer))
                <==> amount > 0 && !Has(book, creator, key) && Coins(book, payer) < amount)
            && (answer.Success? <==> amount > 0 && !Has(book, creator, key) && amount <= Coins(book, payer))
            && (answer.Success? ==>
                  && Has(after, creator, key)
                  && Moved(book, after, payer, Account(creator, "__system_sink__", SystemSink),
                           amount, Transaction(TxId(creator, key), PurchaseTx, reason)))
            && (!answer.Success? ==> after == book)
  {
    HasIsRecorded(book, creator, key);
    if AnswerTo(book, Spend(creator, viewer, amount, reason, Some(key))).Success? {
      NewIsLast(book, Spend(creator, viewer, amount, reason, Some(key)));
    }
  }

  /** A transfer with its own key: the amount, the two viewers, the key and the funds are looked at in this order. */
  lemma TransferByKey(
      book: Book, creator: string, sender: string, receiver: string, amount: int, reason: string, key: string)
    requires key != ""
    ensures var call := Transfer(creator, sender, receiver, amount, reason, Some(key));
            var answer, after := AnswerTo(book, call), Step(book, call);
            var payer := Account(creator, sender, Viewer);
            && (answer.InvalidAmount? <==> amount <= 0)
            && (answer.CannotTransferToSelf? <==> amount > 0 && sender == receiver)
            && (answer.DuplicateSkipped? <==> amount > 0 && sender != receiver && Has(book, creator, key))
            && (answer == InsufficientFunds(amount, Coins(book, payer))
                <==> amount > 0 && sender != receiver && !Has(book, creator, key) && Coins(book, payer) < amount)
            && (answer.Success?
                <==> amount > 0 && sender != receiver && !Has(book, creator, key) && amount <= Coins(book, payer))
            && (answer.Success? ==>
                  && Has(after, creator, key)
                  && Moved(book, after, payer, Account(creator, receiver, Viewer),
                           amount, Transaction(TxId(creator, key), TransferTx, reason)))
            && (!answer.Success? ==> after == book)
  {
    HasIsRecorded(book, creator, key);
    if AnswerTo(book, Transfer(creator, sender, receiver, amount, reason, Some(key))).Success? {
      NewIsLast(book, Transfer(creator, sender, receiver, amount, reason, Some(key)));
    }
  }
}
