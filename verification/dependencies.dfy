/** The role gate of the request dependencies (backend/app/dependencies.py,
    `require_role`). Authentication itself is not part of this model: the
    caller arrives as an already authenticated `User`. */
module Dependencies {
  import opened Wrappers
  import opened Entities

  const InsufficientRole := HttpError(403, "Insufficient role")

  /** Passes exactly when the user's role is the required one. */
  function RequireRole(user: User, required: UserRole): (check: Check)
    ensures check == Pass <==> user.role == required
    ensures check.Fail? ==> check.error == HttpError(403, "Insufficient role")
  {
    if user.role != required then Fail(InsufficientRole) else Pass
  }
}
