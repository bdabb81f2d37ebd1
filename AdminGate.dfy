/**
 * The shared-secret check in front of the admin endpoints:
 * `require_admin_code_from_query` (the `code` query parameter) and
 * `require_admin_code_from_json` (the `code` member of the JSON body).
 * Both abort with 403 unless the code is present, truthy and equal to the
 * configured admin code.
 */
module AdminGate {
  import opened Wrappers
  import opened Json
  import Py

  /** The admin code when the `ADMIN_CODE` environment variable is unset. */
  const DefaultAdminCode := "admin123"

  /**
   * `require_admin_code_from_query`: `true` when the request may proceed,
   * which is exactly for a non-empty code equal to the admin code.
   */
  predicate QueryGrants(code: Option<string>, admin: string): (ok: bool)
    ensures ok <==> admin != "" && code == Some(admin)
  {
    !(code.None? || code.value == "" || code.value != admin)
  }

  /** The outcome of `require_admin_code_from_json`. */
  datatype Gate =
    | Granted(data: seq<Member>)  // the body, returned to the handler
    | Denied                      // abort(403)
    | Uncaught                    // `.get` on a body that is not a dict

  /**
   * `data = request.get_json(silent=True) or {}` then
   * `code = data.get("code")`: a falsy or absent body becomes `{}`; a truthy
   * body that is not a dict makes `.get` raise.
   */
  function JsonGate(payload: Option<Json>, admin: string): (g: Gate)
    // the body is handed on exactly when it is a dict whose `code` is the
    // non-empty admin code; a code of any other type never matches
    ensures g.Granted? <==>
      admin != "" && payload.Some? && payload.value.Object? &&
      Get(payload.value.members, "code") == Some(Str(admin))
    ensures g.Granted? ==> g.data == payload.value.members
    // a 500 rather than a 403: the body is truthy JSON that is not a dict
    ensures g == Uncaught <==> payload.Some? && !Py.Falsy(payload.value) && !payload.value.Object?
  {
    var data := if payload.None? || Py.Falsy(payload.value) then Object([]) else payload.value;
    if !data.Object? then Uncaught
    else
      var code := Get(data.members, "code");
      if code.None? || Py.Falsy(code.value) || code.value != Str(admin) then Denied
      else Granted(data.members)
  }
}
