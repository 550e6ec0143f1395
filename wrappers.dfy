/** The shapes in which a backend answers the front end.

    Every actor method the front end awaits either resolves to a Candid
    result record (`{ok: v}` or `{err: e}`) or rejects with an exception;
    a few resolve to a bare value. Both are inputs of the model. */
module Wrappers {

  datatype Option<+T> = None | Some(value: T)

  /** A result-wrapped actor call: `'ok' in result`, `'err' in result`, or a thrown error. */
  datatype Reply<+T> = Ok(value: T) | Err(err: string) | Threw(message: string)

  /** A call that resolves to a bare value or throws (`isUsernameAvailable`, `NFID.init`, ...). */
  datatype Call<+T> = Returned(value: T) | Raised(message: string)

  /** JavaScript truthiness of an optional text argument: `null`, `undefined` and `''` are falsy. */
  predicate Truthy(x: Option<string>) {
    x.Some? && x.value != ""
  }

  /** The Candid encoding `x ? [x] : []` of an optional argument. */
  function CandidOpt(x: Option<string>): (r: seq<string>)
    ensures |r| <= 1
    ensures r == [] <==> !Truthy(x)
    ensures r != [] ==> r[0] == x.value
  {
    if Truthy(x) then [x.value] else []
  }

  /** Reading a Candid optional back (`opt[0]` when present). */
  function FromCandidOpt(r: seq<string>): Option<string>
  {
    if r == [] then None else Some(r[0])
  }

  /** Encoding a truthy optional argument and decoding it returns the argument. */
  lemma CandidOptRoundTrip(x: Option<string>)
    requires Truthy(x)
    ensures FromCandidOpt(CandidOpt(x)) == x
  {
  }
}
