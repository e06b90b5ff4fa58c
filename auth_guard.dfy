// The bearer-token guard: it reads the token from the Authorization header,
// rejects a request without one, verifies it against the configured secret and
// attaches the verified payload to the request.
module AuthGuard {
  import opened Common

  const TokenMissing := "Token não fornecido"
  const TokenRejected := "Token inválido ou expirado"
  const Bearer := "Bearer"

  /** What a verified token carries (`{ userId }`). */
  datatype CurrentUserPayload = CurrentUserPayload(userId: string)

  /** `s.split(sep)`: the fields between separators, always at least one. */
  function Split(s: string, sep: char): (r: seq<string>)
    ensures |r| >= 1
    ensures forall k :: 0 <= k < |r| ==> sep !in r[k]
    decreases |s|
  {
    if |s| == 0 then [""]
    else if s[0] == sep then [""] + Split(s[1..], sep)
    else
      var t := Split(s[1..], sep);
      [[s[0]] + t[0]] + t[1..]
  }

  /** `parts.join(sep)`. */
  function Join(parts: seq<string>, sep: char): string
    requires |parts| >= 1
    decreases |parts|
  {
    if |parts| == 1 then parts[0] else parts[0] + [sep] + Join(parts[1..], sep)
  }

  /** Joining the fields back with the separator gives the string again. */
  lemma {:induction false} JoinSplit(s: string, sep: char)
    ensures Join(Split(s, sep), sep) == s
    decreases |s|
  {
    if |s| == 0 {
    } else if s[0] == sep {
      JoinSplit(s[1..], sep);
      assert s == [sep] + s[1..];
    } else {
      var t := Split(s[1..], sep);
      JoinSplit(s[1..], sep);
      if |t| == 1 {
        assert s == [s[0]] + s[1..];
      } else {
        assert ([[s[0]] + t[0]] + t[1..])[1..] == t[1..];
        assert Join(t, sep) == t[0] + [sep] + Join(t[1..], sep);
        assert s == [s[0]] + s[1..];
      }
    }
  }

  /** The first field is the longest separator-free prefix; when there is a
      second field, a separator ends the first and the rest is the split of
      what follows it. */
  lemma {:induction false} SplitHead(s: string, sep: char)
    ensures var r := Split(s, sep);
      |r[0]| <= |s| && s[..|r[0]|] == r[0] &&
      (|r| == 1 <==> |r[0]| == |s|) &&
      (|r| > 1 ==> s[|r[0]|] == sep && r[1..] == Split(s[|r[0]| + 1..], sep))
    decreases |s|
  {
    if |s| == 0 {
    } else if s[0] == sep {
    } else {
      SplitHead(s[1..], sep);
      var t := Split(s[1..], sep);
      assert s[1..][..|t[0]|] == t[0];
      assert s[..|t[0]| + 1] == [s[0]] + s[1..][..|t[0]|];
      if |t| > 1 {
        assert s[|t[0]| + 2..] == s[1..][|t[0]| + 1..];
      }
    }
  }

  /** `extractTokenFromHeader`: the second space-separated field of the
      Authorization header when the first is exactly "Bearer". */
  function ExtractToken(authorization: Option<string>): (r: Option<string>)
    ensures r.Some? <==>
      authorization.Some? && |authorization.value| > |Bearer| &&
      authorization.value[..|Bearer| + 1] == Bearer + " "
    ensures r.Some? ==> (' ' !in r.value &&
      var h := authorization.value; var n := |Bearer| + 1 + |r.value|;
      n <= |h| && h[..n] == Bearer + " " + r.value && (n == |h| || h[n] == ' '))
  {
    match authorization
    case None => None
    case Some(h) =>
      var fields := Split(h, ' ');
      SplitHead(h, ' ');
      if fields[0] == Bearer && |fields| >= 2 then
        SplitHead(h[|Bearer| + 1..], ' ');
        assert h[..|Bearer| + 1] == h[..|Bearer|] + [h[|Bearer|]];
        var rest := h[|Bearer| + 1..];
        assert h[..|Bearer| + 1 + |fields[1]|] == h[..|Bearer| + 1] + rest[..|fields[1]|];
        Some(fields[1])
      else
        assert |h| > |Bearer| && h[..|Bearer| + 1] == Bearer + " " ==>
          h[..|fields[0]|] == fields[0] && |fields[0]| == |Bearer| && |fields| > 1 by {
          if |h| > |Bearer| && h[..|Bearer| + 1] == Bearer + " " {
            FirstFieldIsPrefix(h, fields[0], Bearer);
          }
        }
        None
  }

  /** A separator-free prefix that a separator follows is the first field. */
  lemma FirstFieldIsPrefix(h: string, first: string, word: string)
    requires first == Split(h, ' ')[0] && ' ' !in word
    requires |h| > |word| && h[..|word| + 1] == word + " "
    ensures first == word && |Split(h, ' ')| > 1
  {
    SplitHead(h, ' ');
    assert forall k :: 0 <= k < |first| ==> h[k] == first[k] != ' ';
    assert forall k :: 0 <= k < |word| ==> h[k] == word[k] != ' ';
    assert h[|word|] == ' ';
    assert |first| == |word|;
    assert first == h[..|word|] == word;
  }

  /** The request as the guard sees it: the header it reads and the field it sets. */
  class Request {
    const authorization: Option<string>
    var user: Option<CurrentUserPayload>

    constructor (authorization: Option<string>)
      ensures this.authorization == authorization && user.None?
    {
      this.authorization := authorization;
      user := None;
    }
  }

  /** `canActivate`. `secret` is the configured JWT_SECRET and `verify(token, secret)`
      is the token library's check; None stands for any exception it throws. */
  method CanActivate(request: Request, secret: Option<string>,
                     verify: (string, string) -> Option<CurrentUserPayload>)
    returns (r: Result<bool>)
    modifies request`user
    ensures var token := ExtractToken(request.authorization);
      if !TruthyString(token) then
        r == Err(Unauthorized(TokenMissing)) && unchanged(request)
      else if !TruthyString(secret) || verify(token.value, secret.value).None? then
        r == Err(Unauthorized(TokenRejected)) && unchanged(request)
      else
        r == Ok(true) && request.user == verify(token.value, secret.value)
  {
    var token := ExtractToken(request.authorization);
    if !TruthyString(token) {
      return Err(Unauthorized(TokenMissing));
    }
    if !TruthyString(secret) {
      return Err(Unauthorized(TokenRejected));
    }
    var payload := verify(token.value, secret.value);
    if payload.None? {
      return Err(Unauthorized(TokenRejected));
    }
    request.user := payload;
    return Ok(true);
  }

  /** The token is exactly the space-free run after "Bearer ", whatever follows it. */
  lemma TokenAfterScheme(t: string, rest: string)
    requires ' ' !in t
    requires rest == [] || rest[0] == ' '
    ensures ExtractToken(Some(Bearer + " " + t + rest)) == Some(t)
  {
    var h := Bearer + " " + t + rest;
    assert h[..|Bearer| + 1] == Bearer + " ";
    var v := ExtractToken(Some(h)).value;
    var n := |Bearer| + 1;
    assert forall k :: 0 <= k < |v| ==> h[n + k] == v[k] != ' ';
    assert forall k :: 0 <= k < |t| ==> h[n + k] == t[k] != ' ';
    assert n + |t| == |h| || h[n + |t|] == ' ';
    assert |v| == |t|;
    assert v == h[n..n + |t|] == t;
  }

  /** Header values at the edges: the scheme is case-sensitive, a bare scheme has
      no token, and a second space right after it yields an empty token, which
      the guard then treats as missing. */
  lemma HeaderExamples()
    ensures ExtractToken(Some("Bearer abc")) == Some("abc")
    ensures ExtractToken(Some("Bearer abc def")) == Some("abc")
    ensures ExtractToken(Some("bearer abc")) == None
    ensures ExtractToken(Some("Bearer")) == None
    ensures ExtractToken(Some("Bearer  abc")) == Some("")
    ensures ExtractToken(None) == None
  {
    TokenAfterScheme("abc", "");
    assert Bearer + " " + "abc" + "" == "Bearer abc";
    TokenAfterScheme("abc", " def");
    assert Bearer + " " + "abc" + " def" == "Bearer abc def";
    TokenAfterScheme("", " abc");
    assert Bearer + " " + "" + " abc" == "Bearer  abc";
    assert "bearer abc"[..7][0] != "Bearer "[0];
  }
}
