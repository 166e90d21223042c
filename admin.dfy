/** The admin role gate that sits in front of admin-only routes. It reads
    the decoded token claims that the authentication step attached to the
    request and either lets the request through or answers 403. */
module Middleware {
  import opened Outcomes
  import opened Models

  /** A decoded JSON claim value. */
  datatype ClaimValue = Text(text: string) | Number(number: real) | Flag(flag: bool) | Null | Composite

  type Claims = map<string, ClaimValue>

  /** What the gate does with the request: hand it to the next handler, or
      write an error response and stop the chain. */
  datatype Verdict = Next | Abort(failure: Failure)

  /** The gate. `attached` is the claims entry of the request context; it
      must be present (the unchecked type assertion fails otherwise). */
  function AdminMiddleware(attached: Option<Claims>): (v: Verdict)
    requires attached.Some?
    ensures v.Next? <==> "role" in attached.value && attached.value["role"] == Text("admin")
    ensures v.Abort? ==> v.failure == Forbidden("Admin access required") && v.failure.Code() == 403
  {
    var claims := attached.value;
    if "role" in claims && claims["role"] == Text("admin") then Next
    else Abort(Forbidden("Admin access required"))
  }

  /** A token issued for a user with a documented role passes exactly when
      that role is the admin role, whatever the other claims hold. */
  lemma RoleGate(claims: Claims, role: Role)
    ensures AdminMiddleware(Some(claims["role" := Text(RoleName(role))])).Next? <==> role == Admin
  {
  }

  /** A missing role claim, or one that is not text, is refused. */
  lemma UntypedRoleRefused(claims: Claims)
    requires "role" !in claims || !claims["role"].Text?
    ensures AdminMiddleware(Some(claims)) == Abort(Forbidden("Admin access required"))
  {
  }
}
