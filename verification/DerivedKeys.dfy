/** Which calls without a key of their own count as the same. */
module DerivedKeys {
  import opened Options
  import opened Ledger
  import opened LedgerMeaning

  // ----- decimal numerals -----

  function DigitValue(d: char): int { d as int - '0' as int }

  /** The number a string of digits spells. */
  function ValueOf(digits: string): int {
    if digits == "" then 0 else 10 * ValueOf(digits[..|digits| - 1]) + DigitValue(digits[|digits| - 1])
  }

  lemma {:induction false} DecimalSpells(n: nat)
    ensures Decimal(n) != "" && ValueOf(Decimal(n)) == n && ':' !in Decimal(n)
    decreases n
  {
    if n < 10 {
      DigitSpells(n);
    } else {
      DecimalSpells(n / 10);
      DigitSpells(n % 10);
      var front := Decimal(n / 10);
      assert Decimal(n) == front + ["0123456789"[n % 10]];
      assert Decimal(n)[..|front|] == front;
    }
  }

  lemma DigitSpells(n: nat)
    requires n < 10
    ensures var d := "0123456789"[n]; DigitValue(d) == n && d != ':'
    ensures ValueOf(["0123456789"[n]]) == n
  {
    var one := ["0123456789"[n]];
    assert one[..0] == [];
    assert ValueOf(one[..0]) == 0;
  }

  lemma DecimalsDiffer(m: nat, n: nat)
    ensures Decimal(m) == Decimal(n) <==> m == n
  {
    DecimalSpells(m);
    DecimalSpells(n);
  }

  // ----- fields joined by colons -----

  lemma SamePrefix(p: string, x: string, y: string)
    ensures p + x == p + y <==> x == y
  {
    assert (p + x)[|p|..] == x && (p + y)[|p|..] == y;
  }

  lemma ColonOnlyAt(x: string, a: string)
    ensures var s := x + ":" + a;
            && s[|x|] == ':' && s[..|x|] == x && s[|x| + 1..] == a
            && (':' !in a ==> forall i :: |x| < i < |s| ==> s[i] != ':')
            && (':' !in x ==> forall i :: 0 <= i < |x| ==> s[i] != ':')
  {
  }

  /** The last field of a joined string can be read off when it has no colon. */
  lemma LastField(x: string, y: string, a: string, b: string)
    requires ':' !in a && ':' !in b
    ensures x + ":" + a == y + ":" + b <==> x == y && a == b
  {
    ColonOnlyAt(x, a);
    ColonOnlyAt(y, b);
  }

  lemma LastNumber(x: string, y: string, m: nat, n: nat)
    ensures x + ":" + Decimal(m) == y + ":" + Decimal(n) <==> x == y && m == n
  {
    DecimalSpells(m);
    DecimalSpells(n);
    DecimalsDiffer(m, n);
    LastField(x, y, Decimal(m), Decimal(n));
  }

  /** So can the first one. */
  lemma FirstField(x: string, y: string, a: string, b: string)
    requires ':' !in x && ':' !in y
    ensures x + ":" + a == y + ":" + b <==> x == y && a == b
  {
    ColonOnlyAt(x, a);
    ColonOnlyAt(y, b);
  }

  // ----- earns and spends -----

  /** No key of its own: none at all, or an empty one. */
  predicate Keyless(key: Option<string>) { key == None || key == Some("") }

  lemma EarnKeysAgree(creator: string, viewer: string, r: string, q: string, k: Option<string>, l: Option<string>)
    requires Keyless(k) && Keyless(l)
    ensures EarnKey(creator, viewer, r, k) == EarnKey(creator, viewer, q, l) <==> r == q
    ensures SpendKey(creator, viewer, r, k) == SpendKey(creator, viewer, q, l) <==> r == q
  {
    SamePrefix("earn:" + creator + ":" + viewer + ":", r, q);
    SamePrefix("spend:" + creator + ":" + viewer + ":", r, q);
  }

  /** The two calls are answered alike and do the same. */
  predicate Alike(book: Book, call: Call, other: Call) {
    AnswerTo(book, call) == AnswerTo(book, other) && Step(book, call) == Step(book, other)
  }

  /** A call without a key of its own is the same call under a key made of its fields. */
  lemma KeylessIsDerived(book: Book, creator: string, v: string, w: string, n: int, r: string, k: Option<string>)
    requires Keyless(k)
    ensures Alike(book, Earn(creator, v, n, r, k),
                  Earn(creator, v, n, r, Some("earn:" + creator + ":" + v + ":" + r)))
    ensures Alike(book, Spend(creator, v, n, r, k),
                  Spend(creator, v, n, r, Some("spend:" + creator + ":" + v + ":" + r)))
    ensures Alike(book, Transfer(creator, v, w, n, r, k),
                  Transfer(creator, v, w, n, r, Some("xfer:" + creator + ":" + v + ":" + w + ":" + Decimal(n))))
    ensures Alike(book, Give(creator, v, w, n, r, k),
                  Give(creator, v, w, n, r,
                       Some("earn:" + creator + ":" + w + ":" + ("Admin grant by " + v + ": " + r))))
  {
    var derived := Some("earn:" + creator + ":" + w + ":" + ("Admin grant by " + v + ": " + r));
    assert MovementOf(Give(creator, v, w, n, r, k)) == MovementOf(Give(creator, v, w, n, r, derived));
  }

  lemma PostedIsFound(book: Book, call: Call, id: TxId)
    requires AnswerTo(book, call).Success?
    ensures Recorded(Step(book, call), id) <==> id == MovementOf(call).tx.id || Recorded(book, id)
  {
    NewIsLast(book, call);
    assert forall t :: t in Step(book, call).transactions <==> t in book.transactions || t == MovementOf(call).tx;
  }

  /** After an earn of a viewer without a key of its own, another one is skipped exactly when it names the same
      reason, or would have been skipped before. */
  lemma KeylessEarnsByReason(book: Book, creator: string, viewer: string, m: int, n: int,
                             r: string, q: string, k: Option<string>, l: Option<string>)
    requires Keyless(k) && Keyless(l) && n > 0
    requires AnswerTo(book, Earn(creator, viewer, m, r, k)).Success?
    ensures AnswerTo(Step(book, Earn(creator, viewer, m, r, k)), Earn(creator, viewer, n, q, l)).DuplicateSkipped?
            <==> q == r || AnswerTo(book, Earn(creator, viewer, n, q, l)).DuplicateSkipped?
  {
    EarnKeysAgree(creator, viewer, r, q, k, l);
    PostedIsFound(book, Earn(creator, viewer, m, r, k), MovementOf(Earn(creator, viewer, n, q, l)).tx.id);
  }

  lemma KeylessSpendsByReason(book: Book, creator: string, viewer: string, m: int, n: int,
                              r: string, q: string, k: Option<string>, l: Option<string>)
    requires Keyless(k) && Keyless(l) && n > 0
    requires AnswerTo(book, Spend(creator, viewer, m, r, k)).Success?
    ensures AnswerTo(Step(book, Spend(creator, viewer, m, r, k)), Spend(creator, viewer, n, q, l)).DuplicateSkipped?
            <==> q == r || AnswerTo(book, Spend(creator, viewer, n, q, l)).DuplicateSkipped?
  {
    EarnKeysAgree(creator, viewer, r, q, k, l);
    PostedIsFound(book, Spend(creator, viewer, m, r, k), MovementOf(Spend(creator, viewer, n, q, l)).tx.id);
  }

  /** Grants likewise, by the reason they compose. */
  lemma KeylessGivesByReason(book: Book, creator: string, admin: string, other: string, viewer: string, m: int, n: int,
                             r: string, q: string, k: Option<string>, l: Option<string>)
    requires Keyless(k) && Keyless(l) && n > 0
    requires AnswerTo(book, Give(creator, admin, viewer, m, r, k)).Success?
    ensures AnswerTo(Step(book, Give(creator, admin, viewer, m, r, k)),
                     Give(creator, other, viewer, n, q, l)).DuplicateSkipped?
            <==> "Admin grant by " + other + ": " + q == "Admin grant by " + admin + ": " + r
                 || AnswerTo(book, Give(creator, other, viewer, n, q, l)).DuplicateSkipped?
  {
    EarnKeysAgree(creator, viewer, GrantReason(admin, r), GrantReason(other, q), k, l);
    PostedIsFound(book, Give(creator, admin, viewer, m, r, k), MovementOf(Give(creator, other, viewer, n, q, l)).tx.id);
  }

  // ----- transfers -----

  /** Moving the brackets of a joined string. */
  lemma Joined(p: string, x: string, y: string, z: string)
    ensures p + x + ":" + y + ":" + z == p + (x + ":" + y + ":" + z)
  {
  }

  lemma TransferKeyIs(creator: string, s: string, t: string, m: int, k: Option<string>)
    requires Keyless(k)
    ensures TransferKey(creator, s, t, m, k) == ("xfer:" + creator + ":") + (s + ":" + t + ":" + Decimal(m))
  {
    Joined("xfer:" + creator + ":", s, t, Decimal(m));
  }

  lemma TransferKeysAgree(creator: string, s: string, t: string, u: string, v: string, m: nat, n: nat,
                          k: Option<string>, l: Option<string>)
    requires Keyless(k) && Keyless(l)
    ensures TransferKey(creator, s, t, m, k) == TransferKey(creator, u, v, n, l)
            <==> m == n && s + ":" + t == u + ":" + v
  {
    TransferKeyIs(creator, s, t, m, k);
    TransferKeyIs(creator, u, v, n, l);
    SamePrefix("xfer:" + creator + ":", s + ":" + t + ":" + Decimal(m), u + ":" + v + ":" + Decimal(n));
    LastNumber(s + ":" + t, u + ":" + v, m, n);
  }

  /** After a transfer without a key of its own, another one is skipped exactly when the amounts agree and the two
      viewers, joined by a colon, spell the same; or if it would have been skipped before. */
  lemma KeylessTransfersByFields(
      book: Book, creator: string, s: string, t: string, u: string, v: string, m: int, n: int,
      r: string, q: string, k: Option<string>, l: Option<string>)
    requires Keyless(k) && Keyless(l) && n > 0 && u != v
    requires AnswerTo(book, Transfer(creator, s, t, m, r, k)).Success?
    ensures AnswerTo(Step(book, Transfer(creator, s, t, m, r, k)), Transfer(creator, u, v, n, q, l)).DuplicateSkipped?
            <==> (n == m && u + ":" + v == s + ":" + t)
                 || AnswerTo(book, Transfer(creator, u, v, n, q, l)).DuplicateSkipped?
  {
    TransferKeysAgree(creator, s, t, u, v, m, n, k, l);
    PostedIsFound(book, Transfer(creator, s, t, m, r, k), MovementOf(Transfer(creator, u, v, n, q, l)).tx.id);
  }

  /** Among senders whose names have no colon that means the same sender, receiver and amount. */
  lemma KeylessTransfersByViewers(
      book: Book, creator: string, s: string, t: string, u: string, v: string, m: int, n: int,
      r: string, q: string, k: Option<string>, l: Option<string>)
    requires Keyless(k) && Keyless(l) && n > 0 && u != v && ':' !in s && ':' !in u
    requires AnswerTo(book, Transfer(creator, s, t, m, r, k)).Success?
    ensures AnswerTo(Step(book, Transfer(creator, s, t, m, r, k)), Transfer(creator, u, v, n, q, l)).DuplicateSkipped?
            <==> (n == m && u == s && v == t) || AnswerTo(book, Transfer(creator, u, v, n, q, l)).DuplicateSkipped?
  {
    KeylessTransfersByFields(book, creator, s, t, u, v, m, n, r, q, k, l);
    FirstField(u, s, v, t);
  }

  /** With colons in the names two different transfers can count as one. */
  lemma ColonsConfuseTransfers(creator: string, m: nat)
    ensures TransferKey(creator, "a:b", "c", m, None) == TransferKey(creator, "a", "b:c", m, None)
  {
    TransferKeysAgree(creator, "a:b", "c", "a", "b:c", m, m, None, None);
  }
}
