/**
 * Values shared by every part of the backend model: JavaScript values as they
 * arrive in requests, optional values, HTTP responses, injected database faults
 * and the role and status strings the code compares against.
 */
module Common {

  datatype Option<T> = None | Some(value: T)

  /**
   * A JavaScript value as it reaches a handler or a query parameter.
   * `undefined` is not a Value: a missing key or a `None` stands for it.
   * Numbers are integral (see README, "Left out").
   */
  datatype Value = Null | Int(i: int) | NaN | Str(s: string) | Bool(b: bool)

  /** JavaScript truthiness: null, 0, NaN, "" and false are falsy. */
  predicate Truthy(v: Value)
  {
    match v
    case Null => false
    case Int(i) => i != 0
    case NaN => false
    case Str(s) => s != ""
    case Bool(b) => b
  }

  /** Truthiness of a value that may be `undefined`. */
  predicate TruthyOpt(o: Option<Value>)
  {
    o.Some? && Truthy(o.value)
  }

  /** Truthiness of an optional string field of a JSON body. */
  predicate TruthyStr(o: Option<string>)
  {
    o.Some? && o.value != ""
  }

  /** `obj[key]`: the value under key, or `undefined` (None) when the key is absent. */
  function Get<K, V>(m: map<K, V>, key: K): (r: Option<V>)
    ensures r.Some? <==> key in m
    ensures r.Some? ==> r.value == m[key]
  {
    if key in m then Some(m[key]) else None
  }

  /** JavaScript `o || fallback` for a possibly undefined value. */
  function OrElse(o: Option<Value>, fallback: Value): (r: Value)
    ensures TruthyOpt(o) ==> r == o.value
    ensures !TruthyOpt(o) ==> r == fallback
  {
    if TruthyOpt(o) then o.value else fallback
  }

  /** JavaScript `s || null` for an optional string, with `null` as None. */
  function StrOrNull(o: Option<string>): (r: Option<string>)
    ensures r.Some? <==> TruthyStr(o)
    ensures r.Some? ==> r == o
  {
    if TruthyStr(o) then o else None
  }

  /** An HTTP response: the status code and the `message` field of its JSON body. */
  datatype Response = Response(status: int, message: string)

  /**
   * A database error injected into a multi-statement operation: `FailAt(k)`
   * makes statement number k (counted from 0) raise; `NoFault` runs cleanly.
   */
  datatype Fault = NoFault | FailAt(step: nat)

  predicate FailsAt(f: Fault, k: nat)
  {
    f.FailAt? && f.step == k
  }

  /** The outcome of a model function that can raise a database error. */
  datatype Result<T> = Ok(value: T) | DbError

  const ADMIN := "admin"
  const AGENT := "agent"
  const USER := "user"

  const VERIFIED := "verified"
  const PENDING := "pending"
  const REJECTED := "rejected"

  /** The claims a verified token carries (`req.user`). */
  datatype Claims = Claims(id: int, username: string, role: string)
}
