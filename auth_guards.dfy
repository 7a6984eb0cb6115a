/** The Express guards: bearer-token extraction and verification
    (`authenticateToken`, in the shared middleware and in the user router),
    and the role checks `requireRole` / `requireAdmin`. Each guard ends in
    exactly one outcome: a status response or a call of `next`. */
module AuthGuards {
  import opened Js
  import opened Seqs

  /** `s.split(' ')`: the pieces between single spaces, empty pieces kept. */
  function Split(s: string): (r: seq<string>)
    ensures |r| >= 1
    ensures forall i :: 0 <= i < |r| ==> ' ' !in r[i]
    decreases |s|
  {
    if s == [] then [""]
    else
      var p := Split(s[..|s| - 1]);
      var c := s[|s| - 1];
      if c == ' ' then p + [""]
      else p[..|p| - 1] + [p[|p| - 1] + [c]]
  }

  /** Joining the pieces restores the header. */
  lemma {:induction false} SplitJoin(s: string)
    ensures Join(Split(s), " ") == s
    decreases |s|
  {
    if s != [] {
      var init, c := s[..|s| - 1], s[|s| - 1];
      assert s == init + [c];
      var p := Split(init);
      SplitJoin(init);
      if c == ' ' {
        JoinSnoc(p, " ", "");
      } else if |p| == 1 {
        assert Split(s) == [p[0] + [c]];
      } else {
        var front := p[..|p| - 1];
        assert p == front + [p[|p| - 1]];
        JoinSnoc(front, " ", p[|p| - 1]);
        JoinSnoc(front, " ", p[|p| - 1] + [c]);
      }
    }
  }

  /** Appending a space-free word extends the last piece. */
  lemma {:induction false} SplitAppendWord(s: string, w: string)
    requires ' ' !in w
    ensures var p := Split(s); Split(s + w) == p[..|p| - 1] + [p[|p| - 1] + w]
    decreases |w|
  {
    var p := Split(s);
    if w == [] {
      assert s + w == s;
      assert p[|p| - 1] + w == p[|p| - 1];
      assert p == p[..|p| - 1] + [p[|p| - 1]];
    } else {
      var w', c := w[..|w| - 1], w[|w| - 1];
      assert w == w' + [c];
      assert c in w;
      SplitAppendWord(s, w');
      assert (s + w)[..|s + w| - 1] == s + w';
      assert (s + w)[|s + w| - 1] == c;
      assert (p[|p| - 1] + w') + [c] == p[|p| - 1] + w;
    }
  }

  /** A trailing space opens a new, empty piece. */
  lemma SplitSpace(s: string)
    ensures Split(s + " ") == Split(s) + [""]
  {
    var t := s + " ";
    assert t[..|t| - 1] == s;
  }

  lemma LastPieceReplaced(front: seq<string>, w: string)
    ensures var p := front + [""]; p[..|p| - 1] + [p[|p| - 1] + w] == front + [w]
  {
    var p := front + [""];
    assert p[..|p| - 1] == front;
    assert p[|p| - 1] + w == w;
  }

  /** Splitting a join of space-free pieces gives the pieces back. */
  lemma {:induction false} JoinSplit(parts: seq<string>)
    requires |parts| >= 1
    requires forall i :: 0 <= i < |parts| ==> ' ' !in parts[i]
    ensures Split(Join(parts, " ")) == parts
    decreases |parts|
  {
    var last := parts[|parts| - 1];
    if |parts| == 1 {
      SplitAppendWord([], last);
      assert [] + last == last;
    } else {
      var front := parts[..|parts| - 1];
      JoinSplit(front);
      var j := Join(front, " ") + " ";
      SplitSpace(Join(front, " "));
      SplitAppendWord(j, last);
      LastPieceReplaced(front, last);
      Seqs.InitLast(parts);
    }
  }

  /** `authHeader && authHeader.split(' ')[1]`; every falsy result (a missing
      header, an empty header, a missing or empty second piece) is "". */
  function TokenOf(header: Option<string>): (r: string)
    ensures header.None? ==> r == ""
    ensures ' ' !in r
    ensures r != "" ==> header.Some? && ' ' in header.value
  {
    match header
    case None => ""
    case Some(h) =>
      if h == "" then ""
      else
        var p := Split(h);
        NoSpaceOnePiece(h);
        if |p| >= 2 then p[1] else ""
  }

  /** A string without a space splits into itself alone. */
  lemma NoSpaceOnePiece(h: string)
    ensures ' ' !in h ==> Split(h) == [h]
  {
    if ' ' !in h {
      JoinSplit([h]);
    }
  }

  /** Whatever the number of pieces, the token is the second piece of the
      header split on ' '. With `SplitJoin` this covers every header that
      contains a space. */
  lemma SecondPieceIsToken(parts: seq<string>)
    requires |parts| >= 2
    requires forall i :: 0 <= i < |parts| ==> ' ' !in parts[i]
    ensures TokenOf(Some(Join(parts, " "))) == parts[1]
  {
    JoinSplit(parts);
    assert Split("") == [""];
  }

  /** "Bearer <token>" yields the token (and "Bearer " yields ""). */
  lemma BearerToken(scheme: string, token: string)
    requires ' ' !in scheme && ' ' !in token
    ensures TokenOf(Some(scheme + " " + token)) == token
  {
    JoinSplit([scheme, token]);
    assert Join([scheme, token], " ") == scheme + " " + token by {
      assert [scheme, token][..1] == [scheme];
    }
  }

  /** A header without a space carries no token. */
  lemma NoSpaceNoToken(h: string)
    requires ' ' !in h
    ensures TokenOf(Some(h)) == ""
  {
    JoinSplit([h]);
  }

  /** A double space leaves the second piece empty. */
  lemma DoubleSpaceNoToken(scheme: string, token: string)
    requires ' ' !in scheme && ' ' !in token
    ensures TokenOf(Some(scheme + "  " + token)) == ""
  {
    var parts := [scheme, "", token];
    JoinSplit(parts);
    assert Join(parts, " ") == scheme + "  " + token by {
      JoinSnoc([scheme], " ", "");
      JoinSnoc([scheme, ""], " ", token);
      assert [scheme] + [""] == [scheme, ""];
      assert [scheme, ""] + [token] == parts;
    }
  }

  /** The decoded token payload that becomes `req.user`. */
  datatype Claims = Claims(id: Id, role: JsVal)

  datatype GuardOutcome = Status401 | Status403 | Next(user: Claims)

  /** jwt.verify(token, secret) as an oracle; None is the error callback.
      The secret is passed as configured, None when the variable is unset:
      what the library does without a secret depends on its version, so the
      oracle decides that case too. */
  type Verifier = (string, Option<string>) -> Option<Claims>

  predicate SecretSet(secret: Option<string>) {
    secret.Some? && secret.value != ""
  }

  /** The shared `authenticateToken` middleware (secret `JWT_SECRET`). */
  function Authenticate(header: Option<string>, secret: Option<string>, verify: Verifier): (r: GuardOutcome)
    ensures r.Status401? <==> TokenOf(header) == ""
    ensures r.Status403? <==> TokenOf(header) != "" && verify(TokenOf(header), secret).None?
    ensures r.Next? ==> verify(TokenOf(header), secret) == Some(r.user)
  {
    var token := TokenOf(header);
    if token == "" then Status401
    else match verify(token, secret)
      case None => Status403
      case Some(user) => Next(user)
  }

  /** The user router's copy falls back to 'dev_secret'. */
  function LocalSecret(secret: Option<string>): (s: string)
    ensures s != ""
    ensures SecretSet(secret) ==> s == secret.value
  {
    if SecretSet(secret) then secret.value else "dev_secret"
  }

  function AuthenticateLocal(header: Option<string>, secret: Option<string>, verify: Verifier): (r: GuardOutcome)
    ensures r.Status401? <==> TokenOf(header) == ""
    ensures r.Status403? <==> TokenOf(header) != "" && verify(TokenOf(header), Some(LocalSecret(secret))).None?
    ensures r.Next? ==> verify(TokenOf(header), Some(LocalSecret(secret))) == Some(r.user)
  {
    Authenticate(header, Some(LocalSecret(secret)), verify)
  }

  /** With a configured secret the two copies agree; without one the user
      router's copy verifies under 'dev_secret' while the shared middleware
      passes the unset (or empty) secret on to the library. */
  lemma LocalGuardAgrees(header: Option<string>, secret: Option<string>, verify: Verifier)
    ensures SecretSet(secret) ==> AuthenticateLocal(header, secret, verify) == Authenticate(header, secret, verify)
    ensures !SecretSet(secret) ==> AuthenticateLocal(header, secret, verify) == Authenticate(header, Some("dev_secret"), verify)
  {
  }

  datatype RoleOutcome = Proceed | Forbidden(error: Option<string>)

  /** `requireRole(role)`: `req.user && req.user.role === role`; else a bare 403. */
  function RequireRole(user: Option<Claims>, role: string): (r: RoleOutcome)
    ensures r == Proceed <==> user.Some? && user.value.role == Str(role)
    ensures r != Proceed ==> r == Forbidden(None)
  {
    if user.Some? && user.value.role == Str(role) then Proceed else Forbidden(None)
  }

  /** `requireAdmin`: 403 with the JSON error 'Admin access required'. */
  function RequireAdmin(user: Option<Claims>): (r: RoleOutcome)
    ensures r == Proceed <==> RequireRole(user, "admin") == Proceed
    ensures r != Proceed ==> r == Forbidden(Some("Admin access required"))
  {
    if user.Some? && user.value.role == Str("admin") then Proceed
    else Forbidden(Some("Admin access required"))
  }
}
