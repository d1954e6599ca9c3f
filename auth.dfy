/**
 * Role-based permission: the role stored on the signed-in user's profile is
 * ranked admin > landlord > tenant and compared with the role an action needs.
 * The profile read is an input; a failed read is caught and denies.
 */
module Auth {
  import opened Wrappers
  import opened TextUtil

  /** The outcome of reading `users/<uid>`: an error, no document, or a document with or without a `role` field. */
  datatype UserDocRead = ReadFailed(error: string) | NoDocument | Document(role: Option<string>)

  /**
   * `getUserRole`: the error is passed on, a missing document gives null, and a
   * document gives its `role` field (absent when it has none).
   */
  function GetUserRole(read: UserDocRead): (r: Result<Option<string>>)
    ensures r.Failure? <==> read.ReadFailed?
    ensures r == Success(None) <==> read.NoDocument? || read == Document(None)
    ensures forall role :: r == Success(Some(role)) <==> read == Document(Some(role))
  {
    match read
    case ReadFailed(e) => Failure(e)
    case NoDocument => Success(None)
    case Document(role) => Success(role)
  }

  /** The rank of a role in the hierarchy; roles outside it have none. */
  function RoleRank(role: string): (r: Option<nat>)
    ensures r.Some? <==> role in {"admin", "landlord", "tenant"}
    ensures r.Some? ==> 1 <= r.value <= 3
    ensures r == Some(3) <==> role == "admin"
    ensures r == Some(1) <==> role == "tenant"
  {
    if role == "admin" then Some(3)
    else if role == "landlord" then Some(2)
    else if role == "tenant" then Some(1)
    else None
  }

  /** Role `a` is at least as high as role `b`, both being known roles. */
  predicate AtLeast(a: string, b: string)
  {
    RoleRank(a).Some? && RoleRank(b).Some? && RoleRank(a).value >= RoleRank(b).value
  }

  /**
   * `checkPermission`: no signed-in user, a failed read, a missing document and
   * a missing or empty role all deny; otherwise the user's role must be known
   * and rank at least as high as the required one, which must be known too.
   */
  function CheckPermission(currentUser: Option<string>, read: UserDocRead, requiredRole: string): (r: bool)
    ensures currentUser.None? ==> !r
    ensures read.ReadFailed? || read.NoDocument? || read == Document(None) || read == Document(Some("")) ==> !r
    ensures RoleRank(requiredRole).None? ==> !r
    ensures r <==> currentUser.Some? && read.Document? && read.role.Some? && AtLeast(read.role.value, requiredRole)
  {
    if currentUser.None? then false
    else match GetUserRole(read)
      case Failure(_) => false
      case Success(role) =>
        if role.None? || role.value == "" then false
        else AtLeast(role.value, requiredRole)
  }

  /** A known role passes its own requirement. */
  lemma OwnRolePasses(uid: string, role: string)
    requires role in {"admin", "landlord", "tenant"}
    ensures CheckPermission(Some(uid), Document(Some(role)), role)
  {
  }

  /** A role that passes a requirement passes every requirement ranked no higher. */
  lemma PermissionMonotone(user: Option<string>, read: UserDocRead, high: string, low: string)
    requires CheckPermission(user, read, high)
    requires RoleRank(low).Some? && RoleRank(low).value <= RoleRank(high).value
    ensures CheckPermission(user, read, low)
  {
  }

  /** An admin passes every known requirement; a tenant passes only "tenant". */
  lemma AdminPassesTenantOnlyTenant(uid: string, required: string)
    ensures CheckPermission(Some(uid), Document(Some("admin")), required) <==> required in {"admin", "landlord", "tenant"}
    ensures CheckPermission(Some(uid), Document(Some("tenant")), required) <==> required == "tenant"
  {
  }

  // ---- the comparison as the source writes it ------------------------------

  /**
   * The keys a plain JavaScript object inherits from `Object.prototype`: looking
   * any of them up in the hierarchy object finds a function or object, not
   * `undefined`.
   */
  const ObjectPrototypeKeys: set<string> := {
    "constructor", "hasOwnProperty", "isPrototypeOf", "propertyIsEnumerable",
    "toLocaleString", "toString", "valueOf", "__proto__",
    "__defineGetter__", "__defineSetter__", "__lookupGetter__", "__lookupSetter__"
  }

  /** The value found by `roleHierarchy[key]`. */
  datatype JsValue = Number(n: int) | Undefined | InheritedMember(key: string)

  function HierarchyLookup(key: string): (v: JsValue)
    ensures v.Number? <==> RoleRank(key).Some?
    ensures v.Number? ==> v.n == RoleRank(key).value
    ensures v.InheritedMember? <==> key in ObjectPrototypeKeys
  {
    match RoleRank(key)
    case Some(n) => Number(n)
    case None => if key in ObjectPrototypeKeys then InheritedMember(key) else Undefined
  }

  /**
   * JavaScript `x >= y` on the looked-up values. A number against `undefined`
   * or an inherited member compares with NaN and is false; two inherited
   * members are turned into their string forms (`primitive(key)`, e.g.
   * "function toString() { [native code] }") and compared as strings.
   */
  function GreaterEq(x: JsValue, y: JsValue, primitive: string -> string): (r: bool)
    ensures x.Number? && y.Number? ==> (r <==> x.n >= y.n)
    ensures x.Undefined? || y.Undefined? ==> !r
    ensures x.InheritedMember? && y == x ==> r
  {
    if x.Number? && y.Number? then x.n >= y.n
    else if x.InheritedMember? && y.InheritedMember? then
      LexLessIrreflexive(primitive(x.key));
      !LexLess(primitive(x.key), primitive(y.key))
    else false
  }

  /** `checkPermission` as written, with `roleHierarchy[userRole] >= roleHierarchy[requiredRole]`. */
  function CheckPermissionAsWritten(currentUser: Option<string>, read: UserDocRead, requiredRole: string,
                                    primitive: string -> string): (r: bool)
    ensures currentUser.None? || read.ReadFailed? || read.NoDocument? || read == Document(None) ==> !r
  {
    if currentUser.None? then false
    else match GetUserRole(read)
      case Failure(_) => false
      case Success(role) =>
        if role.None? || role.value == "" then false
        else GreaterEq(HierarchyLookup(role.value), HierarchyLookup(requiredRole), primitive)
  }

  /**
   * A profile whose role is "toString" passes a "toString" requirement, though
   * neither is a role of the hierarchy: the inherited method is compared with
   * itself. The intended check denies it.
   */
  lemma InheritedRolePassesAsWritten(uid: string, primitive: string -> string)
    ensures CheckPermissionAsWritten(Some(uid), Document(Some("toString")), "toString", primitive)
    ensures !CheckPermission(Some(uid), Document(Some("toString")), "toString")
  {
    assert "toString" in ObjectPrototypeKeys;
    assert HierarchyLookup("toString") == InheritedMember("toString");
  }

  /** Whenever the required role or the user's role is not an inherited key, the source's check is the intended one. */
  lemma AsWrittenAgreesOffPrototypeKeys(currentUser: Option<string>, read: UserDocRead, requiredRole: string,
                                        primitive: string -> string)
    requires requiredRole !in ObjectPrototypeKeys || (read.Document? && read.role.Some? && read.role.value !in ObjectPrototypeKeys)
    ensures CheckPermissionAsWritten(currentUser, read, requiredRole, primitive) == CheckPermission(currentUser, read, requiredRole)
  {
  }
}
