/** The two permission classes of `rooms/permissons.py` as predicates over the
    request method and the requesting user. */
module Permissions {
  import opened Models

  datatype Method = Get | Head | Options | Post | Put | Patch | Delete

  /** The framework's read-only methods. */
  predicate IsSafe(m: Method)
  {
    m.Get? || m.Head? || m.Options?
  }

  /** `IsOwnerOrStaff.has_object_permission`: reads pass; writes need a
      signed-in user who owns the object or is staff. */
  function IsOwnerOrStaff(m: Method, actor: Actor, owner: UserId): (ok: bool)
    ensures IsSafe(m) ==> ok
    ensures !IsSafe(m) ==> (ok <==> actor.IsAuthenticated() && (actor.id == owner || actor.IsStaff()))
  {
    IsSafe(m) || (actor.IsAuthenticated() && (actor.id == owner || actor.isStaff))
  }

  /** `AdminOnlyPermission.has_permission`: reads pass; writes need a
      superuser. */
  function AdminOnly(m: Method, actor: Actor): (ok: bool)
    ensures IsSafe(m) ==> ok
    ensures !IsSafe(m) ==> (ok <==> actor.IsSuperuser())
  {
    if IsSafe(m) then true else actor.IsSuperuser()
  }

  /** An anonymous user may not write any object. */
  lemma AnonymousCannotWriteObjects(m: Method, owner: UserId)
    requires !IsSafe(m)
    ensures !IsOwnerOrStaff(m, Anonymous, owner)
  {
  }

  /** Staff rights without superuser rights do not pass the admin check,
      although they pass the owner-or-staff check on anyone's object. */
  lemma StaffIsNotAdmin(m: Method, id: UserId, owner: UserId)
    requires !IsSafe(m)
    ensures !AdminOnly(m, Member(id, true, false))
    ensures IsOwnerOrStaff(m, Member(id, true, false), owner)
  {
  }

  /** An anonymous user may not create, change or delete a room. */
  lemma AnonymousCannotWriteRooms(m: Method)
    requires !IsSafe(m)
    ensures !AdminOnly(m, Anonymous)
  {
  }
}
