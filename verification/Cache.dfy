/** The in-memory store: keys expire lazily, when they are next looked at. */
module Cache {
  import opened Options

  /** A stored string: the integer it spells, or any other text. */
  datatype Value = Number(n: int) | Text(s: string)

  datatype Store<!K(==)> = Store(values: map<K, Value>, deadlines: map<K, real>)

  datatype Op<K> =
    | Get(key: K)
    | Set(key: K, value: Value, expiry: Option<int>, nx: bool)
    | IncrBy(key: K, amount: int)
    | Delete(key: K)
    | Expire(key: K, seconds: int)
    | Ttl(key: K)

  datatype Reply = Found(value: Option<Value>) | Flag(ok: bool) | Count(n: int) | NotANumber

  /** A key past its deadline that nobody has looked at yet. */
  predicate Stale<K>(s: Store<K>, key: K, now: real) { key in s.deadlines && now > s.deadlines[key] }

  function Drop<K>(s: Store<K>, key: K): Store<K> { Store(s.values - {key}, s.deadlines - {key}) }

  function Cleanup<K>(s: Store<K>, key: K, now: real): Store<K> {
    if Stale(s, key, now) then Drop(s, key) else s
  }

  /** An expiry of zero seconds means none. */
  function Deadlines<K>(deadlines: map<K, real>, key: K, expiry: Option<int>, now: real): map<K, real> {
    if expiry.Some? && expiry.value != 0 then deadlines[key := now + expiry.value as real] else deadlines - {key}
  }

  function Remaining(deadline: real, now: real): int { if deadline < now then 0 else (deadline - now).Floor }

  /** Every operation but delete and expire first drops its key if it is stale. */
  function Apply<K>(s: Store<K>, op: Op<K>, now: real): (Store<K>, Reply) {
    var c := Cleanup(s, op.key, now);
    match op
    case Get(k) => (c, Found(if k in c.values then Some(c.values[k]) else None))
    case Set(k, v, expiry, nx) =>
      if nx && k in c.values then (c, Flag(false))
      else (Store(c.values[k := v], Deadlines(c.deadlines, k, expiry, now)), Flag(true))
    case IncrBy(k, n) =>
      var current := if k in c.values then c.values[k] else Number(0);
      if current.Text? then (c, NotANumber)
      else (c.(values := c.values[k := Number(current.n + n)]), Count(current.n + n))
    case Delete(k) => if k in s.values then (Drop(s, k), Count(1)) else (s, Count(0))
    case Expire(k, seconds) =>
      if k in s.values then (s.(deadlines := s.deadlines[k := now + seconds as real]), Flag(true)) else (s, Flag(false))
    case Ttl(k) =>
      (c, Count(if k !in c.values then -2 else if k in c.deadlines then Remaining(c.deadlines[k], now) else -1))
  }

  class InMemoryRedis<!K(==)> {
    var values: map<K, Value>
    var deadlines: map<K, real>

    function State(): Store<K>
      reads this
    {
      Store(values, deadlines)
    }

    constructor ()
      ensures State() == Store(map[], map[])
    {
      values, deadlines := map[], map[];
    }

    method CleanupExpired(key: K, now: real)
      modifies this
      ensures State() == Cleanup(old(State()), key, now)
    {
      if key in deadlines && now > deadlines[key] {
        values := values - {key};
        deadlines := deadlines - {key};
      }
    }

    method Get(key: K, now: real) returns (found: Option<Value>)
      modifies this
      ensures (State(), Found(found)) == Apply(old(State()), Op.Get(key), now)
    {
      CleanupExpired(key, now);
      found := if key in values then Some(values[key]) else None;
    }

    method Set(key: K, value: Value, expiry: Option<int>, nx: bool, now: real) returns (ok: bool)
      modifies this
      ensures (State(), Flag(ok)) == Apply(old(State()), Op.Set(key, value, expiry, nx), now)
    {
      CleanupExpired(key, now);
      if nx && key in values {
        return false;
      }
      values := values[key := value];
      if expiry.Some? && expiry.value != 0 {
        deadlines := deadlines[key := now + expiry.value as real];
      } else {
        deadlines := deadlines - {key};
      }
      return true;
    }

    method IncrBy(key: K, amount: int, now: real) returns (reply: Reply)
      modifies this
      ensures (State(), reply) == Apply(old(State()), Op.IncrBy(key, amount), now)
    {
      CleanupExpired(key, now);
      var current := if key in values then values[key] else Number(0);
      if current.Text? {
        return NotANumber;
      }
      values := values[key := Number(current.n + amount)];
      return Count(current.n + amount);
    }

    method Delete(key: K) returns (count: int)
      modifies this
      ensures forall now :: (State(), Count(count)) == Apply(old(State()), Op.Delete(key), now)
    {
      if key in values {
        values := values - {key};
        deadlines := deadlines - {key};
        return 1;
      }
      return 0;
    }

    method Expire(key: K, seconds: int, now: real) returns (ok: bool)
      modifies this
      ensures (State(), Flag(ok)) == Apply(old(State()), Op.Expire(key, seconds), now)
    {
      if key in values {
        deadlines := deadlines[key := now + seconds as real];
        return true;
      }
      return false;
    }

    method Ttl(key: K, now: real) returns (seconds: int)
      modifies this
      ensures (State(), Count(seconds)) == Apply(old(State()), Op.Ttl(key), now)
    {
      CleanupExpired(key, now);
      if key !in values {
        return -2;
      }
      if key in deadlines {
        return Remaining(deadlines[key], now);
      }
      return -1;
    }
  }
}
