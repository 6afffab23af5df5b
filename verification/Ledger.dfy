/** The double-entry coin ledger: four operations that move coins between two accounts of one
    creator, deduplicated by (creator, idempotency key). */
module Ledger {
  import opened Options

  datatype AccountKind = Viewer | SystemMint | SystemSink

  datatype Account = Account(creator: string, viewer: string, kind: AccountKind)

  /** A transaction row is identified by the pair its uniqueness constraint ranges over. */
  datatype TxId = TxId(creator: string, key: string)

  datatype TxKind = RewardTx | PurchaseTx | TransferTx

  datatype Transaction = Transaction(id: TxId, kind: TxKind, description: string)

  datatype Direction = Debit | Credit

  datatype Entry = Entry(tx: TxId, account: Account, direction: Direction, amount: int, balanceAfter: int)

  /** The three tables the service writes. */
  datatype Book = Book(balances: map<Account, int>, transactions: seq<Transaction>, entries: seq<Entry>)

  datatype Call =
    | Earn(creator: string, viewer: string, amount: int, reason: string, key: Option<string>)
    | Spend(creator: string, viewer: string, amount: int, reason: string, key: Option<string>)
    | Transfer(creator: string, sender: string, receiver: string, amount: int, reason: string, key: Option<string>)
    | Give(creator: string, admin: string, viewer: string, amount: int, reason: string, key: Option<string>)

  datatype Answer =
    | Success(tx: Transaction)
    | DuplicateSkipped(tx: Transaction)
    | InvalidAmount
    | CannotTransferToSelf
    | InsufficientFunds(needed: int, have: int)
  {
    /** The boolean the service returns first: a skipped duplicate also reports success. */
    predicate Ok() { Success? || DuplicateSkipped? }
  }

  const EMPTY_BOOK := Book(map[], [], [])
  const MINT_ID := "__system_mint__"
  const SINK_ID := "__system_sink__"

  function MintOf(creator: string): Account { Account(creator, MINT_ID, SystemMint) }

  function SinkOf(creator: string): Account { Account(creator, SINK_ID, SystemSink) }

  function ViewerOf(creator: string, viewer: string): Account { Account(creator, viewer, Viewer) }

  /** A missing or empty idempotency key falls back to the operation's derived key. */
  function KeyOr(key: Option<string>, fallback: string): string {
    if key.Some? && key.value != "" then key.value else fallback
  }

  function Decimal(n: int): string
    decreases if n < 0 then 1 - n else n
  {
    if n < 0 then "-" + Decimal(-n)
    else if n < 10 then ["0123456789"[n]]
    else Decimal(n / 10) + ["0123456789"[n % 10]]
  }

  function GrantReason(admin: string, reason: string): string { "Admin grant by " + admin + ": " + reason }

  function EarnKey(creator: string, viewer: string, reason: string, key: Option<string>): string {
    KeyOr(key, "earn:" + creator + ":" + viewer + ":" + reason)
  }

  function SpendKey(creator: string, viewer: string, reason: string, key: Option<string>): string {
    KeyOr(key, "spend:" + creator + ":" + viewer + ":" + reason)
  }

  function TransferKey(creator: string, sender: string, receiver: string, amount: int, key: Option<string>): string {
    KeyOr(key, "xfer:" + creator + ":" + sender + ":" + receiver + ":" + Decimal(amount))
  }

  /** What a call means: move `amount` from `source` to `target` under transaction `tx`;
      a funded movement needs the source account to exist and to hold the amount. */
  datatype Movement = Movement(source: Account, target: Account, amount: int, tx: Transaction, funded: bool)

  function MovementOf(call: Call): Movement {
    match call
    case Earn(c, v, n, reason, key) =>
      Movement(MintOf(c), ViewerOf(c, v), n,
               Transaction(TxId(c, EarnKey(c, v, reason, key)), RewardTx, reason), false)
    case Give(c, admin, v, n, reason, key) =>
      var grant := GrantReason(admin, reason);
      Movement(MintOf(c), ViewerOf(c, v), n,
               Transaction(TxId(c, EarnKey(c, v, grant, key)), RewardTx, grant), false)
    case Spend(c, v, n, reason, key) =>
      Movement(ViewerOf(c, v), SinkOf(c), n,
               Transaction(TxId(c, SpendKey(c, v, reason, key)), PurchaseTx, reason), true)
    case Transfer(c, s, r, n, reason, key) =>
      Movement(ViewerOf(c, s), ViewerOf(c, r), n,
               Transaction(TxId(c, TransferKey(c, s, r, n, key)), TransferTx, reason), true)
  }

  function Lookup(transactions: seq<Transaction>, id: TxId): (found: Option<Transaction>)
    ensures found.Some? ==> found.value in transactions && found.value.id == id
    ensures found.None? <==> forall t :: t in transactions ==> t.id != id
  {
    if transactions == [] then None
    else if transactions[0].id == id then Some(transactions[0])
    else Lookup(transactions[1..], id)
  }

  predicate Recorded(book: Book, id: TxId) { Lookup(book.transactions, id).Some? }

  function BalanceOf(balances: map<Account, int>, a: Account): int {
    if a in balances then balances[a] else 0
  }

  function AnswerTo(book: Book, call: Call): Answer {
    var m := MovementOf(call);
    if m.amount <= 0 then InvalidAmount
    else if m.source == m.target then CannotTransferToSelf
    else if Recorded(book, m.tx.id) then DuplicateSkipped(Lookup(book.transactions, m.tx.id).value)
    else if m.funded && BalanceOf(book.balances, m.source) < m.amount then
      InsufficientFunds(m.amount, BalanceOf(book.balances, m.source))
    else Success(m.tx)
  }

  /** The book after a movement was posted: one transaction, one debit, one credit. */
  function Post(book: Book, m: Movement): Book {
    var left := BalanceOf(book.balances, m.source) - m.amount;
    var grown := BalanceOf(book.balances, m.target) + m.amount;
    Book(book.balances[m.source := left][m.target := grown],
         book.transactions + [m.tx],
         book.entries + EntriesOf(m, left, grown))
  }

  function EntriesOf(m: Movement, left: int, grown: int): seq<Entry> {
    [Entry(m.tx.id, m.source, Debit, m.amount, left), Entry(m.tx.id, m.target, Credit, m.amount, grown)]
  }

  function Step(book: Book, call: Call): Book {
    if AnswerTo(book, call).Success? then Post(book, MovementOf(call)) else book
  }

  function Run(book: Book, calls: seq<Call>): Book
    decreases |calls|
  {
    if calls == [] then book else Step(Run(book, calls[..|calls| - 1]), calls[|calls| - 1])
  }

  /** The service as written: rows looked up, created and updated one after the other. */
  class EconomyService {
    var balances: map<Account, int>
    var transactions: seq<Transaction>
    var entries: seq<Entry>

    function Rows(): Book
      reads this
    {
      Book(balances, transactions, entries)
    }

    constructor ()
      ensures Rows() == EMPTY_BOOK
    {
      balances, transactions, entries := map[], [], [];
    }

    method GetBalance(creator: string, viewer: string) returns (coins: int)
      ensures coins == BalanceOf(balances, ViewerOf(creator, viewer))
    {
      var a := ViewerOf(creator, viewer);
      coins := if a in balances then balances[a] else 0;
    }

    method GetOrCreateAccount(a: Account)
      modifies this`balances
      ensures balances == old(balances)[a := BalanceOf(old(balances), a)]
    {
      if a !in balances {
        balances := balances[a := 0];
      }
    }

    method Append(tx: TxId, a: Account, direction: Direction, amount: int, balanceAfter: int)
      modifies this`entries
      ensures entries == old(entries) + [Entry(tx, a, direction, amount, balanceAfter)]
    {
      entries := entries + [Entry(tx, a, direction, amount, balanceAfter)];
    }

    method Earn(creator: string, viewer: string, amount: int, reason: string, key: Option<string>)
      returns (answer: Answer)
      modifies this
      ensures answer == AnswerTo(old(Rows()), Call.Earn(creator, viewer, amount, reason, key))
      ensures Rows() == Step(old(Rows()), Call.Earn(creator, viewer, amount, reason, key))
    {
      if amount <= 0 {
        return InvalidAmount;
      }
      var id := TxId(creator, EarnKey(creator, viewer, reason, key));
      var existing := Lookup(transactions, id);
      if existing.Some? {
        return DuplicateSkipped(existing.value);
      }
      var mint, account := MintOf(creator), ViewerOf(creator, viewer);
      GetOrCreateAccount(mint);
      GetOrCreateAccount(account);
      var tx := Transaction(id, RewardTx, reason);
      transactions := transactions + [tx];
      balances := balances[mint := balances[mint] - amount];
      balances := balances[account := balances[account] + amount];
      Append(id, mint, Debit, amount, balances[mint]);
      Append(id, account, Credit, amount, balances[account]);
      return Success(tx);
    }

    method Spend(creator: string, viewer: string, amount: int, reason: string, key: Option<string>)
      returns (answer: Answer)
      modifies this
      ensures answer == AnswerTo(old(Rows()), Call.Spend(creator, viewer, amount, reason, key))
      ensures Rows() == Step(old(Rows()), Call.Spend(creator, viewer, amount, reason, key))
    {
      if amount <= 0 {
        return InvalidAmount;
      }
      var id := TxId(creator, SpendKey(creator, viewer, reason, key));
      var existing := Lookup(transactions, id);
      if existing.Some? {
        return DuplicateSkipped(existing.value);
      }
      var account := ViewerOf(creator, viewer);
      if account !in balances || balances[account] < amount {
        return InsufficientFunds(amount, if account in balances then balances[account] else 0);
      }
      var sink := SinkOf(creator);
      GetOrCreateAccount(sink);
      var tx := Transaction(id, PurchaseTx, reason);
      transactions := transactions + [tx];
      balances := balances[account := balances[account] - amount];
      balances := balances[sink := balances[sink] + amount];
      Append(id, account, Debit, amount, balances[account]);
      Append(id, sink, Credit, amount, balances[sink]);
      return Success(tx);
    }

    method Transfer(creator: string, sender: string, receiver: string, amount: int, reason: string, key: Option<string>)
      returns (answer: Answer)
      modifies this
      ensures answer == AnswerTo(old(Rows()), Call.Transfer(creator, sender, receiver, amount, reason, key))
      ensures Rows() == Step(old(Rows()), Call.Transfer(creator, sender, receiver, amount, reason, key))
    {
      if amount <= 0 {
        return InvalidAmount;
      }
      if sender == receiver {
        return CannotTransferToSelf;
      }
      var id := TxId(creator, TransferKey(creator, sender, receiver, amount, key));
      var existing := Lookup(transactions, id);
      if existing.Some? {
        return DuplicateSkipped(existing.value);
      }
      var from := ViewerOf(creator, sender);
      if from !in balances || balances[from] < amount {
        return InsufficientFunds(amount, if from in balances then balances[from] else 0);
      }
      var to := ViewerOf(creator, receiver);
      GetOrCreateAccount(to);
      var tx := Transaction(id, TransferTx, reason);
      transactions := transactions + [tx];
      balances := balances[from := balances[from] - amount];
      balances := balances[to := balances[to] + amount];
      Append(id, from, Debit, amount, balances[from]);
      Append(id, to, Credit, amount, balances[to]);
      return Success(tx);
    }

    method Give(creator: string, admin: string, viewer: string, amount: int, reason: string, key: Option<string>)
      returns (answer: Answer)
      modifies this
      ensures answer == AnswerTo(old(Rows()), Call.Give(creator, admin, viewer, amount, reason, key))
      ensures Rows() == Step(old(Rows()), Call.Give(creator, admin, viewer, amount, reason, key))
    {
      answer := Earn(creator, viewer, amount, GrantReason(admin, reason), key);
    }
  }
}
