/** Outbound HTTP requests as the request signer sees them. */
module Requests {

  datatype Header = Header(name: string, value: string)

  /**
   An immutable outbound request. `target` stands for the method, URL and
   body, which the signer never inspects.
   */
  datatype Request = Request(target: string, headers: seq<Header>)

  /** The names of the headers a request carries. */
  function HeaderNames(r: Request): set<string>
  {
    set h | h in r.headers :: h.name
  }

  /** How many headers in `hs` are called `name`. */
  function CountHeader(hs: seq<Header>, name: string): nat
  {
    if |hs| == 0 then 0
    else (if hs[0].name == name then 1 else 0) + CountHeader(hs[1..], name)
  }

  /** A copy of `r` with `extra` appended after its existing headers. */
  function WithHeaders(r: Request, extra: seq<Header>): (r': Request)
    ensures r'.target == r.target
    ensures |r'.headers| == |r.headers| + |extra|
    ensures r'.headers[..|r.headers|] == r.headers
    ensures r'.headers[|r.headers|..] == extra
  {
    Request(r.target, r.headers + extra)
  }

  lemma {:induction false} CountHeaderAppend(a: seq<Header>, b: seq<Header>, name: string)
    ensures CountHeader(a + b, name) == CountHeader(a, name) + CountHeader(b, name)
    decreases |a|
  {
    if |a| == 0 {
      assert a + b == b;
    } else {
      assert (a + b)[1..] == a[1..] + b;
      CountHeaderAppend(a[1..], b, name);
    }
  }

  /** A header name is counted exactly when it is one of the request's names. */
  lemma {:induction false} CountHeaderZero(r: Request, name: string)
    ensures CountHeader(r.headers, name) == 0 <==> name !in HeaderNames(r)
    decreases |r.headers|
  {
    if |r.headers| > 0 {
      var rest := Request(r.target, r.headers[1..]);
      CountHeaderZero(rest, name);
      assert HeaderNames(r) == {r.headers[0].name} + HeaderNames(rest) by {
        assert r.headers == [r.headers[0]] + rest.headers;
      }
    }
  }
}
