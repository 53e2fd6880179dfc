/**
 * The authentication gate in front of the employee, team and log routes: it takes the bearer
 * token from the Authorization header, has it verified, and either passes the caller's identity
 * on or rejects the request. Token verification is a library call; it enters as a function.
 */
module AuthMiddleware {
  import opened Wrappers
  import opened Http

  /** The payload of a verified token: the three claims the handlers sign, and the ones the library adds. */
  datatype Claims = Claims(userId: int, orgId: int, email: string, issuedAt: int, expiresAt: int)

  /** What jwt.verify does with a token: returns its payload, or throws one of the named errors. */
  datatype Verdict = Valid(claims: Claims) | JsonWebTokenError | TokenExpiredError | OtherError

  /** What the gate does with a request: passes it on with `req.user` set, or answers it. */
  datatype Gate = Next(user: Identity) | Reject(status: int, message: string)

  /** `s.split(sep)` for a one-character separator: the pieces between separators, at least one. */
  function Split(s: string, sep: char): (pieces: seq<string>)
    ensures |pieces| >= 1
    ensures forall i, k :: 0 <= i < |pieces| && 0 <= k < |pieces[i]| ==> pieces[i][k] != sep
    decreases |s|
  {
    if s == [] then [""]
    else if s[0] == sep then [""] + Split(s[1..], sep)
    else
      var rest := Split(s[1..], sep);
      [[s[0]] + rest[0]] + rest[1..]
  }

  /** `pieces.join(sep)`. */
  function Join(pieces: seq<string>, sep: char): string
    requires |pieces| >= 1
    decreases |pieces|
  {
    if |pieces| == 1 then pieces[0] else pieces[0] + [sep] + Join(pieces[1..], sep)
  }

  /** Splitting loses nothing: joining the pieces back gives the string. */
  lemma {:induction false} JoinSplit(s: string, sep: char)
    ensures Join(Split(s, sep), sep) == s
    decreases |s|
  {
    if s != [] {
      JoinSplit(s[1..], sep);
      var rest := Split(s[1..], sep);
      if s[0] != sep {
        var pieces := Split(s, sep);
        assert pieces[0] == [s[0]] + rest[0] && pieces[1..] == rest[1..];
        if |rest| == 1 {
          assert s == [s[0]] + s[1..];
        } else {
          assert Join(rest, sep) == rest[0] + [sep] + Join(rest[1..], sep);
          assert s == [s[0]] + s[1..];
        }
      } else {
        assert s == [sep] + s[1..];
      }
    }
  }

  /** A string without the separator is one piece. */
  lemma {:induction false} SplitWithoutSeparator(s: string, sep: char)
    requires forall k :: 0 <= k < |s| ==> s[k] != sep
    ensures Split(s, sep) == [s]
    decreases |s|
  {
    if s != [] {
      SplitWithoutSeparator(s[1..], sep);
      assert [s[0]] + s[1..] == s;
    }
  }

  /** A separator-free piece followed by the separator comes off as the first piece. */
  lemma {:induction false} SplitAfterPiece(piece: string, sep: char, t: string)
    requires forall k :: 0 <= k < |piece| ==> piece[k] != sep
    ensures Split(piece + [sep] + t, sep) == [piece] + Split(t, sep)
    decreases |piece|
  {
    var s := piece + [sep] + t;
    if piece == [] {
      assert s == [sep] + t;
      assert s[1..] == t;
    } else {
      SplitAfterPiece(piece[1..], sep, t);
      assert s[1..] == piece[1..] + [sep] + t;
      assert [piece[0]] + piece[1..] == piece;
    }
  }

  /** `"Bearer " + t` splits on spaces into "Bearer" and then the pieces of `t`. */
  lemma BearerSplit(t: string)
    ensures Split("Bearer " + t, ' ') == ["Bearer"] + Split(t, ' ')
  {
    assert "Bearer " + t == "Bearer" + [' '] + t;
    SplitAfterPiece("Bearer", ' ', t);
  }

  /** `header.split(' ')[1]`: the second piece; a header with one piece has none, which counts as missing. */
  function TokenOf(h: string): (t: string)
    ensures forall k :: 0 <= k < |t| ==> t[k] != ' '
    ensures |Split(h, ' ')| > 1 ==> t == Split(h, ' ')[1]
    ensures |Split(h, ' ')| == 1 ==> t == ""
  {
    var pieces := Split(h, ' ');
    if |pieces| > 1 then pieces[1] else ""
  }

  /** authMiddleware. */
  function Authenticate(header: Option<string>, verify: string -> Verdict): (g: Gate)
    ensures g.Next? <==>
      && "Bearer " <= header.GetOr("")
      && TokenOf(header.GetOr("")) != ""
      && verify(TokenOf(header.GetOr(""))).Valid?
    ensures g.Next? ==>
      var claims := verify(TokenOf(header.GetOr(""))).claims;
      g.user == Identity(claims.userId, claims.orgId, claims.email)
    ensures g == Reject(401, "No token provided") <==> !("Bearer " <= header.GetOr("")) || TokenOf(header.GetOr("")) == ""
    ensures "Bearer " <= header.GetOr("") && TokenOf(header.GetOr("")) != "" ==>
      var v := verify(TokenOf(header.GetOr("")));
      && (v.JsonWebTokenError? <==> g == Reject(401, "Invalid token"))
      && (v.TokenExpiredError? <==> g == Reject(401, "Token expired"))
      && (v.OtherError? <==> g == Reject(500, "Authentication error"))
  {
    var h := header.GetOr("");
    if !("Bearer " <= h) then Reject(401, "No token provided")
    else
      var token := TokenOf(h);
      if token == "" then Reject(401, "No token provided")
      else
        match verify(token)
        case Valid(claims) => Next(Identity(claims.userId, claims.orgId, claims.email))
        case JsonWebTokenError => Reject(401, "Invalid token")
        case TokenExpiredError => Reject(401, "Token expired")
        case OtherError => Reject(500, "Authentication error")
  }

  /** After the `Bearer ` prefix, the token is the text up to the next space: `"Bearer a b"` carries `"a"`. */
  lemma TokenIsFirstWord(t: string)
    ensures TokenOf("Bearer " + t) == Split(t, ' ')[0]
  {
    BearerSplit(t);
  }

  /** A second space after `Bearer` leaves an empty token, which is told no token was provided. */
  lemma DoubleSpaceIsRejected(t: string, verify: string -> Verdict)
    ensures Authenticate(Some("Bearer  " + t), verify) == Reject(401, "No token provided")
  {
    var h := "Bearer  " + t;
    assert h == "Bearer " + ([' '] + t);
    TokenIsFirstWord([' '] + t);
    SplitAfterPiece("", ' ', t);
    assert "" + [' '] + t == [' '] + t;
  }

  /** A space-free word after `Bearer ` is the token, whatever follows it after another space. */
  lemma WordBeforeSpaceIsToken(w: string, rest: string)
    requires forall k :: 0 <= k < |w| ==> w[k] != ' '
    ensures TokenOf("Bearer " + w + " " + rest) == w
  {
    assert "Bearer " + w + " " + rest == "Bearer " + (w + [' '] + rest);
    TokenIsFirstWord(w + [' '] + rest);
    SplitAfterPiece(w, ' ', rest);
  }

  /** A header without the `Bearer ` prefix, or with nothing after it, is told no token was provided. */
  lemma MissingTokenIsRejected(header: Option<string>, verify: string -> Verdict)
    requires !("Bearer " <= header.GetOr("")) || header.GetOr("") == "Bearer "
    ensures Authenticate(header, verify) == Reject(401, "No token provided")
  {
    var h := header.GetOr("");
    if "Bearer " <= h {
      BearerSplit([]);
      assert h == "Bearer " + [];
    }
  }

  /**
   * The library's two functions agree: verifying a signed token gives back the three claims
   * signed into it.
   */
  ghost predicate SignVerifies(sign: Identity -> string, verify: string -> Verdict) {
    forall id :: verify(sign(id)).Valid?
      && verify(sign(id)).claims.userId == id.userId
      && verify(sign(id)).claims.orgId == id.orgId
      && verify(sign(id)).claims.email == id.email
  }

  /**
   * A token handed out by register or login, sent back as `Bearer <token>` before it expires,
   * lets the request through as the same caller (a token is non-empty and has no spaces).
   */
  lemma IssuedTokenAuthenticates(sign: Identity -> string, verify: string -> Verdict, id: Identity)
    requires SignVerifies(sign, verify)
    requires sign(id) != "" && forall k :: 0 <= k < |sign(id)| ==> sign(id)[k] != ' '
    ensures Authenticate(Some("Bearer " + sign(id)), verify) == Next(id)
  {
    var token := sign(id);
    BearerSplit(token);
    SplitWithoutSeparator(token, ' ');
    var h := "Bearer " + token;
    assert h[..7] == "Bearer ";
    assert TokenOf(h) == token;
  }
}
