/** The authentication middleware: `verifyToken` reads the `Authorization`
    header and decodes the token, `isTeacher` and `isStudent` check the role.
    Token verification (`jwt.verify` with the server secret) is a parameter. */
module Auth {
  import opened Base
  import opened Store

  const BearerPrefix: string := "Bearer "

  /** `header.replace('Bearer ', '')`: the first occurrence of `Bearer ` is
      removed, wherever it is. */
  function TokenOf(header: string): string
  {
    ReplaceFirst(header, BearerPrefix, "")
  }

  /** The standard form `Bearer <token>` yields the token. */
  lemma {:induction false} TokenOfBearer(token: string)
    ensures TokenOf(BearerPrefix + token) == token
  {
    var h := BearerPrefix + token;
    assert h[0..|BearerPrefix|] == BearerPrefix;
    assert OccursAt(h, BearerPrefix, 0);
    assert IndexOf(h, BearerPrefix, 0) == Some(0);
    assert h[|BearerPrefix|..] == token;
  }

  /** A header without `Bearer ` is passed to verification as it is. */
  lemma {:induction false} TokenOfBare(header: string)
    requires forall i :: !OccursAt(header, BearerPrefix, i)
    ensures TokenOf(header) == header
  {
    ReplaceFirstSpec(header, BearerPrefix, "");
  }

  /** What `verifyToken` decides. */
  datatype Verdict = Verified(user: Claims) | Rejected(status: nat)

  function VerifyHeader(header: Option<string>, verify: string -> Option<Claims>): (v: Verdict)
  {
    if header.None? || header.value == "" then Rejected(403)
    else
      match verify(TokenOf(header.value))
      case None => Rejected(401)
      case Some(c) => Verified(c)
  }

  /** A missing or empty header is refused with 403 before any verification;
      a header that does not verify is refused with 401; a standard bearer
      header whose token verifies authenticates its payload. */
  lemma {:induction false} VerifyHeaderCases(header: Option<string>, verify: string -> Option<Claims>, token: string)
    ensures header.None? || header == Some("") ==> VerifyHeader(header, verify) == Rejected(403)
    ensures header == Some(BearerPrefix + token) ==>
              VerifyHeader(header, verify) == (if verify(token).Some? then Verified(verify(token).value) else Rejected(401))
    ensures VerifyHeader(header, verify).Verified? ==> header.Some? && verify(TokenOf(header.value)) == Some(VerifyHeader(header, verify).user)
  {
    TokenOfBearer(token);
  }

  /** The `req`/`res` pair a middleware acts on: the authenticated user, the
      number of times `next()` was called, and the status sent, if any. */
  class Request {
    var user: Option<Claims>
    var nextCalls: nat
    var status: Option<nat>

    constructor()
      ensures user == None && nextCalls == 0 && status == None
    {
      user := None;
      nextCalls := 0;
      status := None;
    }

    /** `verifyToken`: on success `req.user` is the payload and `next` is
        called once; otherwise the status is sent and `next` is not called. */
    method VerifyToken(header: Option<string>, verify: string -> Option<Claims>)
      modifies this
      ensures VerifyHeader(header, verify).Verified? ==>
                user == Some(VerifyHeader(header, verify).user) && nextCalls == old(nextCalls) + 1 && status == old(status)
      ensures VerifyHeader(header, verify).Rejected? ==>
                user == old(user) && nextCalls == old(nextCalls) && status == Some(VerifyHeader(header, verify).status)
    {
      if header.None? || header.value == "" {
        status := Some(403);
        return;
      }
      var decoded := verify(TokenOf(header.value));
      if decoded.None? {
        status := Some(401);
      } else {
        user := decoded;
        nextCalls := nextCalls + 1;
      }
    }

    /** `isTeacher`. */
    method IsTeacher()
      modifies this
      ensures user == old(user)
      ensures TeacherGate(user) ==> nextCalls == old(nextCalls) + 1 && status == old(status)
      ensures !TeacherGate(user) ==> nextCalls == old(nextCalls) && status == Some(403)
    {
      if user.Some? && user.value.role == Teacher {
        nextCalls := nextCalls + 1;
      } else {
        status := Some(403);
      }
    }

    /** `isStudent`. */
    method IsStudent()
      modifies this
      ensures user == old(user)
      ensures StudentGate(user) ==> nextCalls == old(nextCalls) + 1 && status == old(status)
      ensures !StudentGate(user) ==> nextCalls == old(nextCalls) && status == Some(403)
    {
      if user.Some? && user.value.role == Student {
        nextCalls := nextCalls + 1;
      } else {
        status := Some(403);
      }
    }
  }

  /** `req.user && req.user.role === 'enseignant'`. */
  predicate TeacherGate(user: Option<Claims>)
  {
    user.Some? && user.value.role == Teacher
  }

  /** `req.user && req.user.role === 'etudiant'`. */
  predicate StudentGate(user: Option<Claims>)
  {
    user.Some? && user.value.role == Student
  }

  /** No user passes both role checks, and a request without a user passes
      neither. */
  lemma {:induction false} GatesExclusive(user: Option<Claims>)
    ensures !(TeacherGate(user) && StudentGate(user))
    ensures user.None? ==> !TeacherGate(user) && !StudentGate(user)
  {
    assert Teacher[1] != Student[1];
  }

  /** The chain `verifyToken, isTeacher`: `next` reaches the handler exactly
      when the header verifies to a teacher's payload. */
  method TeacherRoute(req: Request, header: Option<string>, verify: string -> Option<Claims>)
    modifies req
    requires req.nextCalls == 0 && req.status == None
    ensures req.nextCalls == 2 <==>
      VerifyHeader(header, verify).Verified? && VerifyHeader(header, verify).user.role == Teacher
    ensures req.nextCalls == 2 ==> req.user == Some(VerifyHeader(header, verify).user)
  {
    req.VerifyToken(header, verify);
    if req.nextCalls == 1 {
      req.IsTeacher();
    }
  }
}
