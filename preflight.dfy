/**
 * src/handlers/preflight.ts: the answer to a CORS preflight (OPTIONS) request.
 *
 * The whitelist comes from the environment variable ORIGINWHITELIST and the origin
 * from the request's `origin` header; both may be absent, so both are parameters of
 * type Option<string>. The console logging is not modelled.
 */
module Preflight {
  import opened Wrappers

  const AllowHeaders: string := "Origin, X-Requested-With, Content-Type, Accept, Authorization"

  const MissingWhiteListMessage: string := "Missing white list of origin!"
  const MissingOriginMessage: string := "Missing passed origin!"
  const NotAllowedMessage: string := "Not allowed origin!"
  const OkMessage: string := "OK"

  /** The three CORS headers every response carries. */
  datatype ResponseHeaders = ResponseHeaders(
    allowOrigin: string,        // Access-Control-Allow-Origin
    allowCredentials: bool,     // Access-Control-Allow-Credentials
    allowHeaders: string)       // Access-Control-Allow-Headers

  /** The proxy result handed back to the API gateway. */
  datatype Response = Response(headers: ResponseHeaders, statusCode: int, body: string)

  /** `JSON.stringify({ message })` for the handler's messages, none of which holds
      a character JSON would escape. The message sits at a fixed place in the
      body, so the body gives it back. */
  function MessageBody(message: string): (body: string)
    ensures |body| == |message| + 14
    ensures body[12..|body| - 2] == message
  {
    "{\"message\":\"" + message + "\"}"
  }

  /** JavaScript's `!v` for a value of type `string | undefined`: absent or empty. */
  predicate Falsy(v: Option<string>)
    ensures !Falsy(v) <==> v.Some? && |v.value| > 0
  {
    v.None? || v.value == ""
  }

  // ----------------------------------------------------------------------------
  // String.prototype.split with a one-character separator, and its inverse
  // ----------------------------------------------------------------------------

  /** `s.split(sep)`: the pieces between separators, empty pieces included, and
      never trimmed; the empty string splits into one empty piece. */
  function Split(s: string, sep: char): (parts: seq<string>)
    ensures |parts| >= 1
    ensures forall i :: 0 <= i < |parts| ==> sep !in parts[i]
  {
    if s == [] then [""]
    else
      var rest := Split(s[1..], sep);
      if s[0] == sep then [""] + rest
      else [[s[0]] + rest[0]] + rest[1..]
  }

  /** `parts.join(sep)`. */
  function Join(parts: seq<string>, sep: char): string
    requires |parts| >= 1
  {
    if |parts| == 1 then parts[0] else parts[0] + [sep] + Join(parts[1..], sep)
  }

  /** Joining the pieces again gives back the string split. */
  lemma {:induction false} JoinSplit(s: string, sep: char)
    ensures Join(Split(s, sep), sep) == s
  {
    if s != [] {
      var rest := Split(s[1..], sep);
      JoinSplit(s[1..], sep);
      if s[0] == sep {
        assert ([""] + rest)[1..] == rest;
      } else if |rest| > 1 {
        assert ([[s[0]] + rest[0]] + rest[1..])[1..] == rest[1..];
      }
    }
  }

  /** Splitting pieces that hold no separator, once joined, gives the pieces back. */
  lemma {:induction false} SplitJoin(parts: seq<string>, sep: char)
    requires |parts| >= 1
    requires forall i :: 0 <= i < |parts| ==> sep !in parts[i]
    ensures Split(Join(parts, sep), sep) == parts
  {
    if |parts| == 1 {
      SplitWithoutSeparator(parts[0], sep);
    } else {
      SplitJoin(parts[1..], sep);
      SplitAfterPiece(parts[0], sep, Join(parts[1..], sep));
      assert parts == [parts[0]] + parts[1..];
    }
  }

  lemma {:induction false} SplitWithoutSeparator(p: string, sep: char)
    requires sep !in p
    ensures Split(p, sep) == [p]
  {
    if p != [] {
      SplitWithoutSeparator(p[1..], sep);
      assert p == [p[0]] + p[1..];
    }
  }

  lemma {:induction false} SplitAfterPiece(p: string, sep: char, t: string)
    requires sep !in p
    ensures Split(p + [sep] + t, sep) == [p] + Split(t, sep)
  {
    if p == [] {
      assert p + [sep] + t == [sep] + t;
      assert ([sep] + t)[1..] == t;
    } else {
      SplitAfterPiece(p[1..], sep, t);
      assert (p + [sep] + t)[1..] == p[1..] + [sep] + t;
      assert p == [p[0]] + p[1..];
    }
  }

  /** Entries are not trimmed: "a, b" lists " b" and not "b". */
  lemma SplitDoesNotTrim()
    ensures Split("a, b", ',') == ["a", " b"]
  {
    SplitJoin(["a", " b"], ',');
  }

  // ----------------------------------------------------------------------------
  // The handler
  // ----------------------------------------------------------------------------

  /** `preflightHandler`: the guards are checked in order — whitelist present,
      origin present, origin listed — and the first that fails answers 403 with
      an empty allowed origin; otherwise the origin is written into the headers
      and the answer is 200. */
  method PreflightHandler(originWhiteList: Option<string>, origin: Option<string>) returns (res: Response)
    ensures res.headers.allowCredentials && res.headers.allowHeaders == AllowHeaders
    ensures res.statusCode == 200 || res.statusCode == 403
    ensures res.statusCode == 200
        <==> !Falsy(originWhiteList) && !Falsy(origin) && origin.value in Split(originWhiteList.value, ',')
    ensures res.statusCode == 200 ==> res.headers.allowOrigin == origin.value && res.body == MessageBody(OkMessage)
    ensures res.statusCode == 403 ==> res.headers.allowOrigin == ""
    ensures Falsy(originWhiteList) ==> res.body == MessageBody(MissingWhiteListMessage)
    ensures !Falsy(originWhiteList) && Falsy(origin) ==> res.body == MessageBody(MissingOriginMessage)
    ensures !Falsy(originWhiteList) && !Falsy(origin) && origin.value !in Split(originWhiteList.value, ',')
            ==> res.body == MessageBody(NotAllowedMessage)
    // an empty whitelist entry admits nothing, nor can an origin holding a comma
    ensures res.statusCode == 200 ==> origin.value != "" && ',' !in origin.value
  {
    var responseHeaders := ResponseHeaders("", true, AllowHeaders);

    if Falsy(originWhiteList) {
      return Response(responseHeaders, 403, MessageBody(MissingWhiteListMessage));
    }

    if Falsy(origin) {
      return Response(responseHeaders, 403, MessageBody(MissingOriginMessage));
    }

    var allowed := Split(originWhiteList.value, ',');
    if origin.value !in allowed {
      return Response(responseHeaders, 403, MessageBody(NotAllowedMessage));
    }

    responseHeaders := responseHeaders.(allowOrigin := origin.value);
    res := Response(responseHeaders, 200, MessageBody(OkMessage));
  }

  /** What callers can conclude from the handler's contract alone. */
  method PreflightScenarios()
  {
    var r := PreflightHandler(None, None);
    assert r.statusCode == 403 && r.body == MessageBody(MissingWhiteListMessage);

    r := PreflightHandler(Some("a, b"), Some(""));
    assert r.statusCode == 403 && r.body == MessageBody(MissingOriginMessage);

    SplitDoesNotTrim();
    r := PreflightHandler(Some("a, b"), Some("b"));
    assert r.statusCode == 403 && r.headers.allowOrigin == "" && r.body == MessageBody(NotAllowedMessage);

    r := PreflightHandler(Some("a, b"), Some(" b"));
    assert r.statusCode == 200 && r.headers.allowOrigin == " b";
  }
}
