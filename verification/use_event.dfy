/**
 * The `useEvent` hook: the membership list of one event, the joined flag and
 * count derived from it, and the join/unjoin toggle that replaces the list
 * with the server's answer.
 */
module UseEvent {
  import opened Wrappers

  /** The `data` object of a successful register reply. */
  datatype RegistrationData = RegistrationData(registrationUsers: Option<seq<string>>)

  /**
   * What the register request came back with: a thrown error (network or
   * JSON failure), a non-2xx status, or a 2xx body whose `data` may be absent.
   */
  datatype RegisterReply =
    | Threw
    | NotOk
    | OkReply(data: Option<RegistrationData>)

  /**
   * The membership list after a toggle: the server's list on success (`[]`
   * if it sent none); unchanged on a failure, including a success body
   * without `data`, whose property access throws and is caught.
   */
  function UsersAfter(users: seq<string>, reply: RegisterReply): (r: seq<string>)
    ensures reply.OkReply? && reply.data.Some? && reply.data.value.registrationUsers.Some? ==>
      r == reply.data.value.registrationUsers.value
    ensures reply.OkReply? && reply.data.Some? && reply.data.value.registrationUsers.None? ==> r == []
    ensures !(reply.OkReply? && reply.data.Some?) ==> r == users
  {
    match reply
    case OkReply(Some(RegistrationData(Some(list)))) => list
    case OkReply(Some(RegistrationData(None))) => []
    case _ => users
  }

  class EventRegistration {
    const id: string
    const currentUserId: string
    var users: seq<string>

    /** `users` starts as the event's `registrationUsers`. */
    constructor (id: string, registrationUsers: seq<string>, currentUserId: string)
      ensures this.id == id && this.currentUserId == currentUserId
      ensures users == registrationUsers
    {
      this.id := id;
      this.currentUserId := currentUserId;
      users := registrationUsers;
    }

    /** `isJoined`. */
    predicate IsJoined()
      reads this
    {
      currentUserId in users
    }

    /** `count`. */
    function Count(): nat
      reads this
    {
      |users|
    }

    /** `toggleJoin`, given the reply the request came back with. */
    method ToggleJoin(reply: RegisterReply)
      modifies this
      ensures users == UsersAfter(old(users), reply)
      ensures !(reply.OkReply? && reply.data.Some?) ==>
        IsJoined() == old(IsJoined()) && Count() == old(Count())
    {
      users := UsersAfter(users, reply);
    }
  }

  /**
   * Joined flag and count after a successful toggle: joined iff the server's
   * list holds the user, count its length.
   */
  lemma JoinedAfterSuccess(users: seq<string>, list: seq<string>, me: string)
    ensures var r := UsersAfter(users, OkReply(Some(RegistrationData(Some(list)))));
      (me in r <==> me in list) && |r| == |list|
  {
  }

  /** A failed toggle leaves joined flag and count as they were. */
  lemma FailureKeepsMembership(users: seq<string>, reply: RegisterReply, me: string)
    requires reply.Threw? || reply.NotOk? || reply == OkReply(None)
    ensures var r := UsersAfter(users, reply);
      (me in r <==> me in users) && |r| == |users|
  {
  }

  /** The example: the server answers ["u1", "u2"] and the user is "u2". */
  method JoinExample() returns (joined: bool, count: nat)
    ensures joined && count == 2
  {
    var reg := new EventRegistration("3", [], "u2");
    reg.ToggleJoin(OkReply(Some(RegistrationData(Some(["u1", "u2"])))));
    joined := reg.IsJoined();
    count := reg.Count();
  }
}
