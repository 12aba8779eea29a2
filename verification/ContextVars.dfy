/** `contextvars.ContextVar` and its one-use tokens, as one thread sees them. */
module ContextVars {

  class Token<T> {
    const before: T
    var used: bool

    constructor (before: T)
      ensures this.before == before && !used
    {
      this.before := before;
      used := false;
    }
  }

  class ContextVar<T> {
    var value: T

    constructor (default: T)
      ensures value == default
    {
      value := default;
    }

    /** `set`: the token remembers what was there. */
    method Set(v: T) returns (token: Token<T>)
      modifies this
      ensures value == v && fresh(token) && !token.used && token.before == old(value)
    {
      token := new Token(value);
      value := v;
    }

    /** `reset`: a token works once; using it again raises and changes nothing. */
    method Reset(token: Token<T>) returns (ok: bool)
      modifies this, token
      ensures ok == !old(token.used) && token.used
      ensures value == if ok then token.before else old(value)
    {
      ok := !token.used;
      if ok {
        value := token.before;
        token.used := true;
      }
    }
  }
}
