/**
 * middleware/auth.middleware.go: the `Authorization: Bearer <token>` header
 * (section 2.1 of RFC 6750) and the guard that admits a request only when the
 * token validates. The header is split on single spaces and the scheme is
 * compared case-sensitively, although section 2.1 of RFC 7235 makes
 * auth-schemes case-insensitive.
 */
module Middleware {
  import opened Results
  import opened UserModel
  import opened Oracles

  // ----- strings.Split and its inverse -----

  /** strings.Split(s, sep) for a one-character separator: the pieces between separators, [""] for "". */
  function Split(s: string, sep: char): (parts: seq<string>)
    ensures |parts| >= 1
    ensures forall i :: 0 <= i < |parts| ==> sep !in parts[i]
    decreases |s|
  {
    if |s| == 0 then [""]
    else
      var rest := Split(s[1..], sep);
      if s[0] == sep then [""] + rest
      else [[s[0]] + rest[0]] + rest[1..]
  }

  /** strings.Join(parts, sep). */
  function Join(parts: seq<string>, sep: char): string
    requires |parts| >= 1
    decreases |parts|
  {
    if |parts| == 1 then parts[0] else parts[0] + [sep] + Join(parts[1..], sep)
  }

  /** Joining the pieces gives the string back. */
  lemma {:induction false} JoinSplit(s: string, sep: char)
    ensures Join(Split(s, sep), sep) == s
    decreases |s|
  {
    if |s| > 0 {
      var rest := Split(s[1..], sep);
      JoinSplit(s[1..], sep);
      if s[0] == sep {
        assert Split(s, sep) == [""] + rest;
        assert Split(s, sep)[1..] == rest;
        assert s == [sep] + s[1..];
      } else {
        var parts := Split(s, sep);
        assert parts == [[s[0]] + rest[0]] + rest[1..];
        if |rest| == 1 {
          assert s == [s[0]] + s[1..];
        } else {
          assert parts[1..] == rest[1..];
          assert Join(rest, sep) == rest[0] + [sep] + Join(rest[1..], sep);
          assert s == [s[0]] + s[1..];
        }
      }
    }
  }

  /** Splitting a join of separator-free pieces gives the pieces back. */
  lemma {:induction false} SplitJoin(parts: seq<string>, sep: char)
    requires |parts| >= 1
    requires forall i :: 0 <= i < |parts| ==> sep !in parts[i]
    ensures Split(Join(parts, sep), sep) == parts
    decreases |Join(parts, sep)|, |parts|
  {
    var s := Join(parts, sep);
    if parts[0] == "" {
      if |parts| > 1 {
        var tail := Join(parts[1..], sep);
        assert s == [sep] + tail;
        assert s[1..] == tail;
        SplitJoin(parts[1..], sep);
        assert parts == [""] + parts[1..];
      }
    } else {
      var c := parts[0][0];
      var w := parts[0][1..];
      var shorter := [w] + parts[1..];
      forall i | 0 <= i < |shorter| ensures sep !in shorter[i] {
        if i == 0 {
          assert forall x :: x in w ==> x in parts[0];
        } else {
          assert shorter[i] == parts[i];
        }
      }
      assert parts[0] == [c] + w;
      assert s == [c] + Join(shorter, sep) by {
        if |parts| > 1 {
          assert shorter[1..] == parts[1..];
        }
      }
      assert s[1..] == Join(shorter, sep);
      SplitJoin(shorter, sep);
      assert c != sep;
      assert parts == [[c] + w] + shorter[1..];
    }
  }

  /** A separator-free prefix followed by the separator splits off as one piece. */
  lemma SplitPrefix(w: string, sep: char, x: string)
    requires sep !in w
    ensures Split(w + [sep] + x, sep) == [w] + Split(x, sep)
  {
    var parts := [w] + Split(x, sep);
    assert parts[1..] == Split(x, sep);
    JoinSplit(x, sep);
    assert Join(parts, sep) == w + [sep] + x;
    forall i | 0 <= i < |parts| ensures sep !in parts[i] {
      if i > 0 { assert parts[i] == Split(x, sep)[i - 1]; }
    }
    SplitJoin(parts, sep);
  }

  /** A separator-free word followed by nothing or by the separator is the first piece. */
  lemma SplitHead(t: string, sep: char, rest: string)
    requires sep !in t
    requires rest == "" || rest[0] == sep
    ensures Split(t + rest, sep)[0] == t
  {
    if rest == "" {
      assert t + rest == Join([t], sep);
      SplitJoin([t], sep);
    } else {
      assert t + rest == t + [sep] + rest[1..];
      SplitPrefix(t, sep, rest[1..]);
    }
  }

  // ----- strings.TrimSpace -----

  /** unicode.IsSpace. */
  predicate IsSpace(c: char) {
    var n := c as int;
    (0x09 <= n <= 0x0D) || n == 0x20 || n == 0x85 || n == 0xA0 || n == 0x1680
    || (0x2000 <= n <= 0x200A) || n == 0x2028 || n == 0x2029 || n == 0x202F || n == 0x205F || n == 0x3000
  }

  function TrimLeft(s: string): (r: string)
    ensures |r| <= |s| && r == s[|s| - |r|..]
    ensures forall i :: 0 <= i < |s| - |r| ==> IsSpace(s[i])
    ensures r == "" || !IsSpace(r[0])
    decreases |s|
  {
    if |s| > 0 && IsSpace(s[0]) then TrimLeft(s[1..]) else s
  }

  function TrimRight(s: string): (r: string)
    ensures |r| <= |s| && r == s[..|r|]
    ensures forall i :: |r| <= i < |s| ==> IsSpace(s[i])
    ensures r == "" || !IsSpace(r[|r| - 1])
    decreases |s|
  {
    if |s| > 0 && IsSpace(s[|s| - 1]) then TrimRight(s[..|s| - 1]) else s
  }

  /** strings.TrimSpace: leading and trailing white space removed. */
  function TrimSpace(s: string): string {
    TrimRight(TrimLeft(s))
  }

  /** TrimSpace leaves nothing exactly when every character is white space. */
  lemma TrimSpaceEmpty(s: string)
    ensures TrimSpace(s) == "" <==> forall i :: 0 <= i < |s| ==> IsSpace(s[i])
  {
    var l := TrimLeft(s);
    if TrimSpace(s) == "" && |l| > 0 {
      // l starts with a non-space, yet TrimRight removes all of it
      assert false;
    }
  }

  // ----- extractTokenFromHeaderString -----

  /** The token of an `Authorization` header, or "missing access token". */
  function ExtractTokenFromHeader(header: string): (r: Result<string>)
    ensures r.Err? ==> r.error == MissingAccessToken
  {
    var parts := Split(header, ' ');
    if |parts| < 2 || parts[0] != "Bearer" || TrimSpace(parts[1]) == "" then Err(MissingAccessToken)
    else Ok(parts[1])
  }

  /** A usable token: no space and at least one character that is not white space. */
  predicate TokenShaped(t: string) {
    ' ' !in t && exists i :: 0 <= i < |t| && !IsSpace(t[i])
  }

  /** What follows the token: nothing, or a space and anything. */
  predicate Trailer(rest: string) {
    rest == "" || rest[0] == ' '
  }

  /** The first two pieces of a join. */
  lemma JoinHead(parts: seq<string>, sep: char)
    requires |parts| >= 2
    ensures Join(parts, sep) ==
      parts[0] + [sep] + parts[1] + (if |parts| == 2 then "" else [sep] + Join(parts[2..], sep))
  {
    assert parts[1..][1..] == parts[2..];
  }

  /** An accepted header is "Bearer ", a token-shaped token, then nothing or a space; the token is returned untrimmed. */
  lemma ExtractSound(header: string)
    requires ExtractTokenFromHeader(header).Ok?
    ensures var t := ExtractTokenFromHeader(header).value;
      && TokenShaped(t)
      && exists rest :: Trailer(rest) && header == "Bearer " + t + rest
  {
    var parts := Split(header, ' ');
    var t := parts[1];
    TrimSpaceEmpty(t);
    JoinSplit(header, ' ');
    JoinHead(parts, ' ');
    var rest := if |parts| == 2 then "" else [' '] + Join(parts[2..], ' ');
    assert header == parts[0] + [' '] + t + rest;
    assert parts[0] + [' '] == "Bearer ";
    assert Trailer(rest);
  }

  /** Every header of that shape is accepted, whatever follows the token. */
  lemma ExtractComplete(t: string, rest: string)
    requires TokenShaped(t) && Trailer(rest)
    ensures ExtractTokenFromHeader("Bearer " + t + rest) == Ok(t)
  {
    var header := "Bearer " + t + rest;
    assert header == "Bearer" + [' '] + (t + rest);
    assert ' ' !in "Bearer";
    SplitPrefix("Bearer", ' ', t + rest);
    SplitHead(t, ' ', rest);
    var parts := Split(header, ' ');
    assert parts[1] == Split(t + rest, ' ')[0];
    TrimSpaceEmpty(t);
  }

  /** The scheme is compared case-sensitively: "bearer" is refused. */
  lemma SchemeIsCaseSensitive()
    ensures ExtractTokenFromHeader("bearer tok").Err?
  {
    assert "bearer tok" == "bearer" + [' '] + "tok";
    SplitPrefix("bearer", ' ', "tok");
    assert "bearer"[0] != "Bearer"[0];
  }

  /** A second space makes the second piece empty, so "Bearer  tok" is refused. */
  lemma DoubleSpaceRejected()
    ensures ExtractTokenFromHeader("Bearer  tok").Err?
  {
    assert "Bearer  tok" == "Bearer" + [' '] + " tok";
    SplitPrefix("Bearer", ' ', " tok");
    assert " tok" == "" + [' '] + "tok";
    SplitPrefix("", ' ', "tok");
    assert Split("Bearer  tok", ' ')[1] == "";
  }

  /** Pieces after the token are ignored. */
  lemma ExtraPartsIgnored()
    ensures ExtractTokenFromHeader("Bearer tok extra") == Ok("tok")
  {
    assert !IsSpace("tok"[0]);
    assert TokenShaped("tok");
    assert "Bearer tok extra" == "Bearer " + "tok" + " extra";
    ExtractComplete("tok", " extra");
  }

  /** The scheme alone is refused. */
  lemma SchemeAloneRejected()
    ensures ExtractTokenFromHeader("Bearer").Err?
  {
    assert "Bearer" == Join(["Bearer"], ' ');
    SplitJoin(["Bearer"], ' ');
  }

  // ----- AuthMiddleware -----

  /** The request context: the Authorization header and the values handlers set. */
  class Context {
    const header: string
    var values: map<string, string>

    constructor (header: string)
      ensures this.header == header && values == map[]
    {
      this.header := header;
      values := map[];
    }
  }

  /** What the guard does: call the next handler, or answer 401 Unauthorized with the error. */
  datatype Response = Next | Unauthorized(error: Error)

  /** AuthMiddleware: admits the request only when the header yields a token that validates, recording its subject as "userId". */
  method AuthMiddleware(c: Context, crypto: Crypto, publicKey: string, now: Instant) returns (r: Response)
    modifies c
    ensures match ExtractTokenFromHeader(c.header)
      case Err(e) => r == Unauthorized(e) && c.values == old(c.values)
      case Ok(token) =>
        match crypto.validateToken(token, publicKey, now)
        case Err(e) => r == Unauthorized(e) && c.values == old(c.values)
        case Ok(sub) => r == Next && c.values == old(c.values)["userId" := sub]
  {
    var token := ExtractTokenFromHeader(c.header);
    if token.Err? {
      return Unauthorized(token.error);
    }
    var claims := crypto.validateToken(token.value, publicKey, now);
    if claims.Err? {
      return Unauthorized(claims.error);
    }
    c.values := c.values["userId" := claims.value];
    return Next;
  }
}
