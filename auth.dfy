/**
 * The authentication gate `authMiddleWare` (apps/backend/src/middlewares/auth.ts).
 *
 * The Cognito verifier is the parameter `verify`: a token maps to the payload
 * it carries, or to None when the verifier throws.
 */
module Auth {
  import opened Wrappers
  import opened AppContext

  /** `parts.join(" ")`. */
  function Join(parts: seq<string>): string
    requires |parts| >= 1
  {
    if |parts| == 1 then parts[0] else parts[0] + " " + Join(parts[1..])
  }

  /**
   * JavaScript's `s.split(" ")`: the pieces between single spaces, so two
   * adjacent spaces give an empty piece and a string without spaces gives itself.
   */
  function Split(s: string): (parts: seq<string>)
    ensures |parts| >= 1
    ensures forall i :: 0 <= i < |parts| ==> ' ' !in parts[i]
    ensures Join(parts) == s
  {
    if s == [] then [""]
    else
      var rest := Split(s[1..]);
      if s[0] == ' ' then
        assert Join([""] + rest) == " " + Join(rest) by {
          assert ([""] + rest)[1..] == rest;
        }
        [""] + rest
      else
        var parts := [[s[0]] + rest[0]] + rest[1..];
        assert Join(parts) == [s[0]] + Join(rest) by {
          if |rest| > 1 {
            assert parts[1..] == rest[1..];
          }
        }
        parts
  }

  /** `header.split(" ")[1]`, where both `undefined` and "" fail the `if (!token)` test. */
  function ExtractToken(header: string): (token: Option<string>)
    ensures token.Some? ==> token.value != "" && ' ' !in token.value
  {
    var parts := Split(header);
    if |parts| >= 2 && parts[1] != "" then Some(parts[1]) else None
  }

  /** A word without spaces splits to itself. */
  lemma {:induction false} SplitWord(w: string)
    requires ' ' !in w
    ensures Split(w) == [w]
  {
    if w != [] {
      assert ' ' !in w[1..];
      SplitWord(w[1..]);
    }
  }

  /** A leading space-free word followed by one space is split off as the first piece. */
  lemma {:induction false} SplitFirstWord(w: string, s: string)
    requires ' ' !in w
    ensures Split(w + " " + s) == [w] + Split(s)
  {
    if w == [] {
      assert w + " " + s == [' '] + s;
      assert (w + " " + s)[1..] == s;
    } else {
      assert (w + " " + s)[1..] == w[1..] + " " + s;
      assert ' ' !in w[1..];
      SplitFirstWord(w[1..], s);
      assert [w[0]] + w[1..] == w;
    }
  }

  /** Splitting undoes joining pieces that contain no space. */
  lemma {:induction false} SplitJoin(parts: seq<string>)
    requires |parts| >= 1
    requires forall i :: 0 <= i < |parts| ==> ' ' !in parts[i]
    ensures Split(Join(parts)) == parts
  {
    if |parts| == 1 {
      SplitWord(parts[0]);
    } else {
      SplitFirstWord(parts[0], Join(parts[1..]));
      SplitJoin(parts[1..]);
    }
  }

  /**
   * The scheme word is never checked: any space-free first word followed by a
   * single space and a space-free token yields that token, whatever follows it.
   */
  lemma AnySchemeAccepted(scheme: string, token: string, trailing: seq<string>)
    requires ' ' !in scheme && ' ' !in token && token != ""
    requires forall i :: 0 <= i < |trailing| ==> ' ' !in trailing[i]
    ensures ExtractToken(Join([scheme, token] + trailing)) == Some(token)
  {
    var parts := [scheme, token] + trailing;
    forall i | 0 <= i < |parts| ensures ' ' !in parts[i] {
      if i >= 2 { assert parts[i] == trailing[i - 2]; }
    }
    SplitJoin(parts);
    var header := Join(parts);
    assert Split(header) == parts;
    assert parts[1] == token;
  }

  /** A header without any space (such as "Bearer" alone) carries no token. */
  lemma NoSpaceNoToken(header: string)
    requires ' ' !in header
    ensures ExtractToken(header) == None
  {
    SplitWord(header);
  }

  /** Two spaces after the scheme (such as "Bearer  x") leave an empty second piece: no token. */
  lemma DoubleSpaceNoToken(scheme: string, rest: string)
    requires ' ' !in scheme
    ensures ExtractToken(scheme + "  " + rest) == None
  {
    assert scheme + "  " + rest == scheme + " " + (" " + rest);
    SplitFirstWord(scheme, " " + rest);
    assert (" " + rest)[1..] == rest;
  }

  const HeaderRequired := Response(401, ErrorJson("Authorization header is required"))
  const InvalidToken := Response(401, ErrorJson("Invalid token"))

  /** What the gate does with a request: answer it at once, or hand it on with `next`. */
  datatype Step = Respond(response: Response) | CallNext

  /** The bearer token of a request: the second word of a present, non-empty header. */
  function Credential(authorization: Option<string>): (token: Option<string>)
    ensures token.Some? ==> authorization.Some? && ExtractToken(authorization.value) == token
    ensures authorization.None? || authorization == Some("") ==> token.None?
  {
    if authorization.None? || authorization.value == "" then None
    else ExtractToken(authorization.value)
  }

  /** The payload the gate admits a request with, if any. */
  function Authenticated(authorization: Option<string>, verify: string -> Option<JwtPayload>): Option<JwtPayload> {
    var token := Credential(authorization);
    if token.None? then None else verify(token.value)
  }

  /** The request reaches the handlers as `owner`. */
  predicate AuthenticatedAs(authorization: Option<string>, verify: string -> Option<JwtPayload>, owner: string) {
    var payload := Authenticated(authorization, verify);
    payload.Some? && payload.value.sub == owner
  }

  /**
   * `authMiddleWare` up to `next()`: a missing or empty header, or one without a
   * token, gives 401 "Authorization header is required"; a token the verifier
   * rejects gives 401 "Invalid token"; otherwise `jwtPayload` is set to the
   * verified payload and the request goes on. A rejected request leaves the
   * context as it was.
   */
  method AuthMiddleware(c: RequestContext, authorization: Option<string>, verify: string -> Option<JwtPayload>)
    returns (step: Step)
    modifies c
    ensures Credential(authorization).None? ==> step == Respond(HeaderRequired)
    ensures Credential(authorization).Some? && verify(Credential(authorization).value).None? ==>
              step == Respond(InvalidToken)
    ensures step.CallNext? <==> Authenticated(authorization, verify).Some?
    ensures step.CallNext? ==> c.jwtPayload == Authenticated(authorization, verify)
    ensures step.Respond? ==> c.jwtPayload == old(c.jwtPayload) && step.response.status == 401
  {
    if authorization.None? || authorization.value == "" {
      return Respond(HeaderRequired);
    }
    var token := ExtractToken(authorization.value);
    if token.None? {
      return Respond(HeaderRequired);
    }
    var verified := verify(token.value);
    if verified.None? {
      return Respond(InvalidToken);
    }
    c.jwtPayload := verified;
    return CallNext;
  }

  /** How the handlers behind `next()` ended: with a response, or by throwing. */
  datatype Downstream = Completed(response: Response) | Raised

  /**
   * The `try { ... await next() } catch` around the handlers: anything thrown
   * after verification is also answered with 401 "Invalid token".
   */
  function CatchDownstream(outcome: Downstream): (response: Response)
    ensures outcome.Raised? ==> response == InvalidToken
    ensures outcome.Completed? ==> response == outcome.response
  {
    match outcome
    case Completed(r) => r
    case Raised => InvalidToken
  }
}
