/**
 * The moderator panel: the list of user accounts, role changes, and account
 * deletion behind a typed confirmation. Server replies and the answer typed
 * into the confirmation prompt are parameters.
 */
module ModeratorPage {
  import opened Wrappers
  import opened Seqs

  datatype Role = UserRole | Moderator | Admin

  datatype UserData = UserData(id: string, username: string, email: string, role: Role, banned: Option<bool>)

  /** The confirmation sent with a delete request: exactly one of the two fields. */
  datatype DeleteBody = UsernameConfirmation(username: string) | PasswordConfirmation(password: string)

  /**
   * How a request ended: accepted (a 2xx status, and for a delete also a JSON
   * body), refused (any other status), or thrown. A delete awaits `res.json()`
   * before it tests the status, so a reply whose body is not JSON counts as
   * `Threw` even with a 2xx status; a role change parses no body, so for it
   * every 2xx status is `Accepted`.
   */
  datatype Reply = Accepted | Refused | Threw

  /** The panel's own user may confirm by username: a moderator or an admin. */
  predicate ConfirmsByUsername(currentRole: Option<string>)
  {
    currentRole == Some("moderator") || currentRole == Some("admin")
  }

  /**
   * The body for a delete: `None` (cancelled) for a dismissed or empty
   * prompt, else the typed text as `username` for moderators and admins and
   * as `password` for everyone else.
   */
  function ConfirmationBody(currentRole: Option<string>, input: Option<string>): (body: Option<DeleteBody>)
    ensures body.None? <==> input.None? || input.value == ""
    ensures body.Some? ==> (body.value.UsernameConfirmation? <==> ConfirmsByUsername(currentRole))
    ensures body.Some? && body.value.UsernameConfirmation? ==> body.value.username == input.value
    ensures body.Some? && body.value.PasswordConfirmation? ==> body.value.password == input.value
  {
    if input.None? || input.value == "" then None
    else if ConfirmsByUsername(currentRole) then Some(UsernameConfirmation(input.value))
    else Some(PasswordConfirmation(input.value))
  }

  /** `users.map(u => u._id === id ? { ...u, role: newRole } : u)`. */
  function SetRole(users: seq<UserData>, id: string, newRole: Role): (r: seq<UserData>)
    ensures |r| == |users|
    ensures forall i :: 0 <= i < |r| ==> r[i].id == users[i].id
    ensures forall i :: 0 <= i < |r| && users[i].id == id ==> r[i].role == newRole
    ensures forall i :: 0 <= i < |r| && users[i].id != id ==> r[i] == users[i]
  {
    seq(|users|, i requires 0 <= i < |users| =>
      if users[i].id == id then users[i].(role := newRole) else users[i])
  }

  /** A role change touches only the `role` of the users with that id. */
  lemma SetRoleChangesOnlyRole(users: seq<UserData>, id: string, newRole: Role, i: nat)
    requires i < |users|
    ensures var u, v := users[i], SetRole(users, id, newRole)[i];
      v.(role := u.role) == u && v.role == (if u.id == id then newRole else u.role)
  {
  }

  /** `users.filter(u => u._id !== id)`. */
  function RemoveUser(users: seq<UserData>, id: string): (r: seq<UserData>)
    ensures forall u :: u in r <==> u in users && u.id != id
  {
    var r := Filter(users, (u: UserData) => u.id != id);
    assert forall i :: 0 <= i < |users| && users[i].id != id ==> users[i] in r;
    r
  }

  /** Each other user is kept exactly as often as they were listed; the removed ones vanish. */
  lemma RemoveUserMultiplicity(users: seq<UserData>, id: string, u: UserData)
    ensures multiset(RemoveUser(users, id))[u] == if u.id != id then multiset(users)[u] else 0
  {
    FilterMultiplicity(users, (v: UserData) => v.id != id, u);
  }

  /** Deleting an id no user has leaves the list unchanged. */
  lemma RemoveAbsentUser(users: seq<UserData>, id: string)
    requires forall i :: 0 <= i < |users| ==> users[i].id != id
    ensures RemoveUser(users, id) == users
  {
    FilterAll(users, (u: UserData) => u.id != id);
  }

  /** Removing a user keeps the others in order: it commutes with concatenation. */
  lemma RemoveUserKeepsOrder(a: seq<UserData>, b: seq<UserData>, id: string)
    ensures RemoveUser(a + b, id) == RemoveUser(a, id) + RemoveUser(b, id)
  {
    FilterConcat(a, b, (u: UserData) => u.id != id);
  }

  class ModeratorPanel {
    var users: seq<UserData>
    const currentRole: Option<string>

    /** The state once both loads have answered. */
    constructor (users: seq<UserData>, currentRole: Option<string>)
      ensures this.users == users && this.currentRole == currentRole
    {
      this.users := users;
      this.currentRole := currentRole;
    }

    /** `handleRoleChange(id, newRole)`. */
    method HandleRoleChange(id: string, newRole: Role, reply: Reply)
      modifies this`users
      ensures users == if reply.Accepted? then SetRole(old(users), id, newRole) else old(users)
    {
      if reply.Accepted? {
        users := SetRole(users, id, newRole);
      }
    }

    /**
     * `handleDelete(target)`: a cancelled prompt sends nothing; otherwise the
     * body goes out, and an accepted reply removes the target's id.
     */
    method HandleDelete(target: UserData, input: Option<string>, reply: Reply) returns (sent: Option<DeleteBody>)
      modifies this`users
      ensures sent == ConfirmationBody(currentRole, input)
      ensures users == if sent.Some? && reply.Accepted? then RemoveUser(old(users), target.id) else old(users)
    {
      sent := ConfirmationBody(currentRole, input);
      if sent.None? {
        return;
      }
      if reply.Accepted? {
        users := RemoveUser(users, target.id);
      }
    }
  }
}
