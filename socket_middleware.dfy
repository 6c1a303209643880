/** middlewares/socket.middleware.js: where the handshake's login token
    comes from (the auth field, else the `loginToken=` cookie, cut out by
    two `split`s), the accept/reject decision around the token validator,
    and the `next` call each path makes. */
module SocketMiddleware {
  import opened Documents
  import opened Sockets

  // ---------------------------------------------------------------------
  // String.prototype.split with a non-empty separator

  /** `sep` occurs in `s` at position i. */
  predicate OccursAt(s: string, sep: string, i: int)
  {
    0 <= i && i + |sep| <= |s| && s[i..i + |sep|] == sep
  }

  /** The first position at or after `from` where `sep` occurs, or -1. */
  function IndexOf(s: string, sep: string, from: nat): (i: int)
    requires |sep| > 0
    ensures i == -1 || (from <= i && OccursAt(s, sep, i))
    decreases |s| - from
  {
    if from + |sep| > |s| then -1
    else if OccursAt(s, sep, from) then from
    else IndexOf(s, sep, from + 1)
  }

  /** IndexOf finds the first occurrence: none lies between `from` and the
      result, and -1 means there is none at all from `from` on. */
  lemma {:induction false} IndexOfIsFirst(s: string, sep: string, from: nat)
    requires |sep| > 0
    ensures IndexOf(s, sep, from) == -1 ==> forall k :: from <= k ==> !OccursAt(s, sep, k)
    ensures IndexOf(s, sep, from) != -1 ==> forall k :: from <= k < IndexOf(s, sep, from) ==> !OccursAt(s, sep, k)
    decreases |s| - from
  {
    if from + |sep| <= |s| && !OccursAt(s, sep, from) {
      IndexOfIsFirst(s, sep, from + 1);
    }
  }

  /** `s.split(sep)`: the pieces between the occurrences of `sep`, found
      left to right without overlap. */
  function Split(s: string, sep: string): (pieces: seq<string>)
    requires |sep| > 0
    ensures |pieces| >= 1
    decreases |s|
  {
    var i := IndexOf(s, sep, 0);
    if i == -1 then [s] else [s[..i]] + Split(s[i + |sep|..], sep)
  }

  /** `pieces.join(sep)`. */
  function Join(pieces: seq<string>, sep: string): string
    requires |pieces| >= 1
  {
    if |pieces| == 1 then pieces[0] else pieces[0] + sep + Join(pieces[1..], sep)
  }

  /** One step of Split: no occurrence leaves the string whole; otherwise
      the text before the first occurrence comes first. */
  lemma SplitStep(s: string, sep: string)
    requires |sep| > 0
    ensures IndexOf(s, sep, 0) == -1 ==> Split(s, sep) == [s]
    ensures var i := IndexOf(s, sep, 0);
      i != -1 ==> Split(s, sep) == [s[..i]] + Split(s[i + |sep|..], sep)
  {
  }

  /** One step of Join. */
  lemma JoinStep(p: string, rest: seq<string>, sep: string)
    requires |rest| >= 1
    ensures Join([p] + rest, sep) == p + sep + Join(rest, sep)
  {
    assert ([p] + rest)[1..] == rest;
  }

  /** Joining the pieces with the separator gives the string back. */
  lemma {:induction false} SplitJoin(s: string, sep: string)
    requires |sep| > 0
    ensures Join(Split(s, sep), sep) == s
    decreases |s|
  {
    var i := IndexOf(s, sep, 0);
    SplitStep(s, sep);
    if i != -1 {
      var tail := s[i + |sep|..];
      SplitJoin(tail, sep);
      JoinStep(s[..i], Split(tail, sep), sep);
      assert s[i..i + |sep|] == sep;
      assert s == s[..i] + s[i..i + |sep|] + tail;
    }
  }

  /** No piece contains the separator. */
  lemma {:induction false} SplitPiecesHaveNoSeparator(s: string, sep: string)
    requires |sep| > 0
    ensures forall p :: p in Split(s, sep) ==> forall k :: !OccursAt(p, sep, k)
    decreases |s|
  {
    var i := IndexOf(s, sep, 0);
    SplitStep(s, sep);
    IndexOfIsFirst(s, sep, 0);
    if i != -1 {
      SplitPiecesHaveNoSeparator(s[i + |sep|..], sep);
      NoOccurrenceInPrefix(s, sep, i);
    }
  }

  /** A prefix ending before the first occurrence holds none. */
  lemma NoOccurrenceInPrefix(s: string, sep: string, i: nat)
    requires |sep| > 0 && i <= |s|
    requires forall k :: 0 <= k < i ==> !OccursAt(s, sep, k)
    ensures forall k :: !OccursAt(s[..i], sep, k)
  {
    forall k
      ensures !OccursAt(s[..i], sep, k)
    {
      if 0 <= k && k + |sep| <= i {
        assert s[..i][k..k + |sep|] == s[k..k + |sep|];
        assert !OccursAt(s, sep, k);
      }
    }
  }

  /** The first piece is the text before the first occurrence, or all of
      it; a second piece exists exactly when the separator occurs, and it
      runs up to the next occurrence. */
  lemma SplitFirstPieces(s: string, sep: string)
    requires |sep| > 0
    ensures var i := IndexOf(s, sep, 0);
      && Split(s, sep)[0] == (if i == -1 then s else s[..i])
      && (|Split(s, sep)| >= 2 <==> i != -1)
      && (i != -1 ==> Split(s, sep)[1] == Split(s[i + |sep|..], sep)[0])
  {
    SplitStep(s, sep);
  }

  // ---------------------------------------------------------------------
  // Token extraction

  const LoginTokenKey: string := "loginToken="

  /** `cookie?.split('loginToken=')[1]?.split(';')[0]`. */
  function CookieToken(cookie: Option<string>): Option<string>
  {
    if cookie.None? then None
    else
      var parts := Split(cookie.value, LoginTokenKey);
      if |parts| < 2 then None else Some(Split(parts[1], ";")[0])
  }

  /** The first piece of a split is the longest prefix without the
      separator: it ends at the end of the string or where the separator
      first occurs. */
  lemma FirstPiece(s: string, sep: string)
    requires |sep| > 0
    ensures PieceOf(s, sep, Split(s, sep)[0])
  {
    SplitFirstPieces(s, sep);
    SplitPiecesHaveNoSeparator(s, sep);
    assert Split(s, sep)[0] in Split(s, sep);
  }

  /** `p` starts `s`, holds no `sep`, and is cut at the end of `s` or
      where `sep` occurs. */
  ghost predicate PieceOf(s: string, sep: string, p: string)
  {
    && |p| <= |s| && s[..|p|] == p
    && (forall k :: !OccursAt(p, sep, k))
    && (|p| == |s| || OccursAt(s, sep, |p|))
  }

  /** An occurrence in a prefix is an occurrence in the whole. */
  lemma OccursInPrefix(s: string, p: string, sep: string, k: int)
    requires |p| <= |s| && s[..|p|] == p && OccursAt(p, sep, k)
    ensures OccursAt(s, sep, k)
  {
    assert s[k..k + |sep|] == p[k..k + |sep|];
  }

  /** An occurrence in a suffix is an occurrence in the whole. */
  lemma OccursInSuffix(s: string, from: nat, sep: string, k: int)
    requires from <= |s| && OccursAt(s[from..], sep, k)
    ensures OccursAt(s, sep, from + k)
  {
    assert s[from..][k..k + |sep|] == s[from + k..from + k + |sep|];
  }

  /** Position j of c ends a token: it is the end, or `d` or `key`
      starts there. */
  predicate TokenEnd(c: string, j: int, key: string, d: string)
  {
    j == |c| || OccursAt(c, d, j) || OccursAt(c, key, j)
  }

  /** `t` is a token of `c` starting at `from`: it is the text there,
      holds neither `key` nor `d`, and is followed by the end, by `d`, or
      by `key`. */
  ghost predicate TokenAt(c: string, from: int, t: string, key: string, d: string)
  {
    && 0 <= from && from + |t| <= |c|
    && c[from..from + |t|] == t
    && (forall k :: !OccursAt(t, d, k))
    && (forall k :: !OccursAt(t, key, k))
    && TokenEnd(c, from + |t|, key, d)
  }

  /** A prefix `t` of a prefix `upto` of what follows position `from`,
      each cut where a separator starts or at the end, sits at `from`
      and is followed by the end or by one of the separators. */
  lemma PrefixOfPrefix(c: string, from: nat, key: string, d: string, upto: string, t: string)
    requires from <= |c|
    requires PieceOf(c[from..], key, upto)
    requires PieceOf(upto, d, t)
    ensures TokenAt(c, from, t, key, d)
  {
    var rest := c[from..];
    assert rest[..|t|] == t;
    forall k | OccursAt(t, key, k)
      ensures false
    {
      OccursInPrefix(upto, t, key, k);
    }
    if |t| < |upto| {
      OccursInPrefix(rest, upto, d, |t|);
      OccursInSuffix(c, from, d, |t|);
    } else if |upto| < |rest| {
      OccursInSuffix(c, from, key, |upto|);
    }
  }

  /** The first piece, split again at `d`, of the first piece at `key` of
      what follows position `from` is a token at `from`. */
  lemma TokenAfter(c: string, from: nat, key: string, d: string, t: string)
    requires |key| > 0 && |d| > 0 && from <= |c|
    requires t == Split(Split(c[from..], key)[0], d)[0]
    ensures TokenAt(c, from, t, key, d)
  {
    var upto := Split(c[from..], key)[0];
    FirstPiece(c[from..], key);
    FirstPiece(upto, d);
    PrefixOfPrefix(c, from, key, d, upto, t);
  }

  /** The cookie token, in terms of positions: the text after the first
      `loginToken=`, up to the first `;` or the next `loginToken=`,
      whichever comes first, or to the end. */
  lemma CookieTokenIs(c: string)
    ensures var i := IndexOf(c, LoginTokenKey, 0);
      && (CookieToken(Some(c)).None? <==> i == -1)
      && (i != -1 ==> TokenAt(c, i + |LoginTokenKey|, CookieToken(Some(c)).value, LoginTokenKey, ";"))
  {
    var i := IndexOf(c, LoginTokenKey, 0);
    SplitFirstPieces(c, LoginTokenKey);
    if i != -1 {
      TokenAfter(c, i + |LoginTokenKey|, LoginTokenKey, ";", CookieToken(Some(c)).value);
    }
  }

  /** `handshake.auth.loginToken || <cookie token>`: the auth token when it
      is truthy; only otherwise the cookie. */
  function LoginToken(authToken: Value, cookie: Option<string>): (token: Value)
    ensures Truthy(authToken) ==> token == authToken
    ensures !Truthy(authToken) && CookieToken(cookie).Some? ==> token == Str(CookieToken(cookie).value)
    ensures !Truthy(authToken) && CookieToken(cookie).None? ==> token == Undefined
  {
    if Truthy(authToken) then authToken
    else if CookieToken(cookie).Some? then Str(CookieToken(cookie).value)
    else Undefined
  }

  /** A cookie `loginToken=;` yields an empty token, which is as good as
      none. */
  lemma EmptyCookieTokenIsNoToken(authToken: Value)
    requires !Truthy(authToken)
    ensures !Truthy(LoginToken(authToken, Some("loginToken=;")))
  {
    CookieTokenIs("loginToken=;");
    assert IndexOf("loginToken=;", LoginTokenKey, 0) == 0;
  }

  // ---------------------------------------------------------------------
  // The decision

  const NoTokenMessage: string := "Authentication error: No loginToken provided"
  const InvalidTokenMessage: string := "Authentication error: Invalid loginToken"

  /** What `authService.validateToken` does with a token: returns a value
      (a falsy one when the token is bad) or throws. */
  datatype Validation = Returned(user: Value) | Threw

  /** A call of `next`: with no argument, or with an error. */
  datatype NextCall = Proceed | Reject(message: string)

  /** The decision: no token rejects at once; a validator that throws or
      returns a falsy value rejects as invalid; otherwise the user is
      accepted. */
  datatype Outcome = Accepted(user: Value) | Rejected(message: string)

  function Decide(token: Value, validate: Value -> Validation): (o: Outcome)
    ensures !Truthy(token) ==> o == Rejected(NoTokenMessage)
    ensures Truthy(token) && validate(token).Threw? ==> o == Rejected(InvalidTokenMessage)
    ensures Truthy(token) && validate(token).Returned? ==>
      o == (if Truthy(validate(token).user) then Accepted(validate(token).user) else Rejected(InvalidTokenMessage))
    ensures o.Accepted? ==> Truthy(o.user)
  {
    if !Truthy(token) then Rejected(NoTokenMessage)
    else
      match validate(token)
      case Threw => Rejected(InvalidTokenMessage)
      case Returned(u) => if Truthy(u) then Accepted(u) else Rejected(InvalidTokenMessage)
  }

  /** `loggedinUser._id`. */
  function IdOf(user: Value): Value
  {
    if user.Obj? then Get(user.props, "_id") else Undefined
  }

  /** socketAuth: the tokens handed to the validator and the calls of
      `next`. Exactly one call is made on every path; the validator is
      consulted only when there is a token; the socket is updated only on
      success. */
  method SocketAuth(socket: Socket, authToken: Value, cookie: Option<string>, validate: Value -> Validation)
    returns (validated: seq<Value>, calls: seq<NextCall>)
    modifies socket
    ensures |calls| == 1
    ensures var o := Decide(LoginToken(authToken, cookie), validate);
      calls[0] == (if o.Accepted? then Proceed else Reject(o.message))
    ensures validated == (if Truthy(LoginToken(authToken, cookie)) then [LoginToken(authToken, cookie)] else [])
    ensures var o := Decide(LoginToken(authToken, cookie), validate);
      if o.Accepted? then socket.loggedinUser == o.user && socket.userId == IdOf(o.user)
      else socket.loggedinUser == old(socket.loggedinUser) && socket.userId == old(socket.userId)
    ensures socket.myTopic == old(socket.myTopic) && socket.rooms == old(socket.rooms)
  {
    validated := [];
    var loginToken := LoginToken(authToken, cookie);
    if !Truthy(loginToken) {
      return [], [Reject(NoTokenMessage)];
    }
    validated := [loginToken];
    var result := validate(loginToken);
    if result.Threw? {
      return validated, [Reject(InvalidTokenMessage)];
    }
    var loggedinUser := result.user;
    if !Truthy(loggedinUser) {
      return validated, [Reject(InvalidTokenMessage)];
    }
    socket.loggedinUser := loggedinUser;
    socket.userId := IdOf(loggedinUser);
    calls := [Proceed];
  }

  /** socketLogger: admits every connection. */
  function SocketLogger(): (calls: seq<NextCall>)
    ensures calls == [Proceed]
  {
    [Proceed]
  }

  /** The middleware chain `use(socketLogger)` then `use(socketAuth)`: a
      handshake is admitted exactly when the auth decision accepts it. */
  function Admitted(authToken: Value, cookie: Option<string>, validate: Value -> Validation): bool
  {
    SocketLogger() == [Proceed] && Decide(LoginToken(authToken, cookie), validate).Accepted?
  }

  /** An admitted handshake had a truthy token that the validator turned
      into a truthy user; a handshake without any token is never
      admitted, whatever the validator would say. */
  lemma AdmittedNeedsValidToken(authToken: Value, cookie: Option<string>, validate: Value -> Validation)
    ensures Admitted(authToken, cookie, validate) ==>
      var t := LoginToken(authToken, cookie);
      Truthy(t) && validate(t).Returned? && Truthy(validate(t).user)
    ensures !Truthy(authToken) && CookieToken(cookie).None? ==> !Admitted(authToken, cookie, validate)
  {
  }
}
