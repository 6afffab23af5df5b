/** What the operations of the store do, as a caller sees it one after the other. */
module CacheMeaning {
  import opened Options
  import opened Cache

  function After<K>(s: Store<K>, op: Op<K>, at: real): Store<K> { Apply(s, op, at).0 }

  function Answer<K>(s: Store<K>, op: Op<K>, at: real): Reply { Apply(s, op, at).1 }

  /** What a look at the key answers at this time. */
  function Seen<K>(s: Store<K>, key: K, at: real): Option<Value> {
    if key in s.values && !(key in s.deadlines && at > s.deadlines[key]) then Some(s.values[key]) else None
  }

  /** A deadline counted from `at`: an expiry of zero or none means no deadline. */
  predicate Lasts(expiry: Option<int>, at: real, later: real) {
    expiry.None? || expiry.value == 0 || later <= at + expiry.value as real
  }

  lemma GetAnswersSeen<K>(s: Store<K>, key: K, at: real)
    ensures Answer(s, Get(key), at) == Found(Seen(s, key, at))
  {
  }

  /** A set is seen as long as its expiry lasts, and set-if-absent leaves a key that is seen. */
  lemma SetThenGet<K>(s: Store<K>, key: K, v: Value, expiry: Option<int>, nx: bool, at: real, later: real)
    requires at <= later
    ensures var op := Set(key, v, expiry, nx);
            if nx && Seen(s, key, at).Some? then
              Answer(s, op, at) == Flag(false) && Seen(After(s, op, at), key, later) == Seen(s, key, later)
            else
              && Answer(s, op, at) == Flag(true)
              && Seen(After(s, op, at), key, later) == if Lasts(expiry, at, later) then Some(v) else None
  {
  }

  /** An increment adds to the number seen, or to zero, answers the sum, and keeps the deadline of a key seen; a new
      counter has none. Text that is no number is an error that changes nothing seen. */
  lemma IncrThenGet<K>(s: Store<K>, key: K, n: int, at: real, later: real)
    requires at <= later
    requires key !in s.values ==> key !in s.deadlines
    ensures var op, seen := IncrBy(key, n), Seen(s, key, at);
            match seen
            case None => Answer(s, op, at) == Count(n) && Seen(After(s, op, at), key, later) == Some(Number(n))
            case Some(Number(m)) =>
              && Answer(s, op, at) == Count(m + n)
              && Seen(After(s, op, at), key, later)
                 == if Seen(s, key, later).Some? then Some(Number(m + n)) else None
            case Some(Text(_)) =>
              Answer(s, op, at) == NotANumber && Seen(After(s, op, at), key, later) == Seen(s, key, later)
  {
  }

  /** A deleted key is not seen, and a key seen is counted as deleted. */
  lemma DeleteThenGet<K>(s: Store<K>, key: K, at: real, later: real)
    ensures Seen(After(s, Delete(key), at), key, later) == None
    ensures Seen(s, key, at).Some? ==> Answer(s, Delete(key), at) == Count(1)
    ensures key !in s.values ==> Answer(s, Delete(key), at) == Count(0)
  {
  }

  /** An expire gives a key that is present this many seconds from now, and does nothing to one that is not. */
  lemma ExpireThenGet<K>(s: Store<K>, key: K, seconds: int, at: real, later: real)
    requires at <= later
    ensures var op := Op.Expire(key, seconds);
            && Answer(s, op, at) == Flag(key in s.values)
            && Seen(After(s, op, at), key, later)
               == if key in s.values && later <= at + seconds as real then Some(s.values[key]) else None
  {
  }

  /** The time to live is -2 for a key not seen, -1 for one without deadline, and else the whole seconds left. */
  lemma TtlTells<K>(s: Store<K>, key: K, at: real)
    ensures var answer := Answer(s, Op.Ttl(key), at);
            && answer.Count?
            && (answer.n == -2 <==> Seen(s, key, at).None?)
            && (answer.n == -1 <==> Seen(s, key, at).Some? && key !in s.deadlines)
            && (Seen(s, key, at).Some? && key in s.deadlines ==>
                  0 <= answer.n && answer.n as real <= s.deadlines[key] - at < answer.n as real + 1.0)
  {
  }

  /** No operation changes what is seen of other keys. */
  lemma OthersAreSeenAlike<K>(s: Store<K>, op: Op<K>, at: real, other: K, later: real)
    requires other != op.key
    ensures Seen(After(s, op, at), other, later) == Seen(s, other, later)
  {
  }
}
