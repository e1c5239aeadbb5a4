/** `ProviderAuthHanlder.handle`: the provider-side guard that lets an
    invocation through only when it carries a valid authentication token. */
module ProviderAuth {
  import opened Wrappers

  /** The part of an `Invocation` the handler sees: its context entries. */
  datatype Invocation = Invocation(context: map<string, string>)

  /** `new HttpStatus(statusCode, reasonPhrase)`. */
  datatype HttpStatus = HttpStatus(statusCode: int, reasonPhrase: string)

  /** `new InvocationException(status, message)`. */
  datatype InvocationException = InvocationException(status: HttpStatus, message: string)

  /** The one thing the handler does with the call. */
  datatype HandlerAction =
    | Next(invocation: Invocation)                 // `invocation.next(asyncResp)`
    | ProducerFail(error: InvocationException)     // `asyncResp.producerFail(error)`

  /** The action taken, and the tokens handed to the validator, in order. */
  datatype Handled = Handled(action: HandlerAction, validatorQueries: seq<string>)

  /** The failure sent for a missing or rejected token. */
  const Unauthorized: InvocationException :=
    InvocationException(HttpStatus(401, "UNAUTHORIZED"), "UNAUTHORIZED")

  /** `invocation.getContext(key)`: `None` stands for `null`. */
  function GetContext(invocation: Invocation, key: string): (r: Option<string>)
    ensures r.Some? <==> key in invocation.context
    ensures r.Some? ==> r.value == invocation.context[key]
  {
    if key in invocation.context then Some(invocation.context[key]) else None
  }

  /** `handle(invocation, asyncResp)`. `authTokenKey` is the value of
      `Const.AUTH_TOKEN` and `valid` stands for
      `RSAProviderTokenManager.valid`. The validator is asked only when a
      token is present (`&&` short-circuits). */
  function Handle(invocation: Invocation, authTokenKey: string, valid: string -> bool): (r: Handled)
    ensures r.action.Next? <==> authTokenKey in invocation.context && valid(invocation.context[authTokenKey])
    ensures r.action.Next? ==> r.action.invocation == invocation
    ensures r.action.ProducerFail? ==> r.action.error == Unauthorized
    ensures authTokenKey !in invocation.context ==> r.validatorQueries == []
    ensures authTokenKey in invocation.context ==> r.validatorQueries == [invocation.context[authTokenKey]]
  {
    var token := GetContext(invocation, authTokenKey);
    if token.Some? then
      if valid(token.value) then Handled(Next(invocation), [token.value])
      else Handled(ProducerFail(Unauthorized), [token.value])
    else Handled(ProducerFail(Unauthorized), [])
  }

  /** Without a token the outcome does not depend on the validator at all. */
  lemma MissingTokenIgnoresValidator(invocation: Invocation, authTokenKey: string, v1: string -> bool, v2: string -> bool)
    requires authTokenKey !in invocation.context
    ensures Handle(invocation, authTokenKey, v1) == Handle(invocation, authTokenKey, v2)
    ensures Handle(invocation, authTokenKey, v1).action == ProducerFail(Unauthorized)
  {
  }

  /** Only the token decides: two invocations carrying the same token under
      the key are treated alike, whatever else their contexts hold. */
  lemma OnlyTokenMatters(a: Invocation, b: Invocation, authTokenKey: string, valid: string -> bool)
    requires GetContext(a, authTokenKey) == GetContext(b, authTokenKey)
    ensures Handle(a, authTokenKey, valid).action.Next? == Handle(b, authTokenKey, valid).action.Next?
    ensures Handle(a, authTokenKey, valid).validatorQueries == Handle(b, authTokenKey, valid).validatorQueries
  {
  }
}
