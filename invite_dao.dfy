/**
 * CollaborationInviteDao: the `collaboration_invites` table and the
 * statements declared on it.
 */
module InviteTable {
  import opened Wrappers
  import opened Tables
  import opened Entities

  const PENDING := "pending"

  predicate ForProject(i: CollaborationInvite, projectId: string) { i.projectId == projectId }
  predicate SentBy(i: CollaborationInvite, userId: string) { i.inviterUserId == userId }
  predicate ForEmail(i: CollaborationInvite, email: string) { i.invitedEmail == email }
  predicate PendingFor(i: CollaborationInvite, email: string) { i.invitedEmail == email && i.status == PENDING }

  /** `UPDATE collaboration_invites SET status = :status WHERE invite_id = :inviteId`. */
  function WithStatus(rows: seq<CollaborationInvite>, inviteId: string, status: string): (r: seq<CollaborationInvite>)
    ensures |r| == |rows|
    ensures forall i :: 0 <= i < |rows| ==> r[i] == if rows[i].inviteId == inviteId then rows[i].(status := status) else rows[i]
  {
    if rows == [] then []
    else [if rows[0].inviteId == inviteId then rows[0].(status := status) else rows[0]]
         + WithStatus(rows[1..], inviteId, status)
  }

  /** Only the status of the addressed invite changes; ids, and so uniqueness, stay. */
  lemma WithStatusKeepsKeys(rows: seq<CollaborationInvite>, inviteId: string, status: string)
    requires UniqueKeys(rows, InviteKey)
    ensures UniqueKeys(WithStatus(rows, inviteId, status), InviteKey)
    ensures forall k :: Lookup(WithStatus(rows, inviteId, status), k, InviteKey) ==
              if k == inviteId && Lookup(rows, k, InviteKey).Some?
              then Some(Lookup(rows, k, InviteKey).value.(status := status))
              else Lookup(rows, k, InviteKey)
  {
    var r := WithStatus(rows, inviteId, status);
    assert forall i :: 0 <= i < |r| ==> InviteKey(r[i]) == InviteKey(rows[i]);
    forall k
      ensures Lookup(r, k, InviteKey) ==
              if k == inviteId && Lookup(rows, k, InviteKey).Some?
              then Some(Lookup(rows, k, InviteKey).value.(status := status))
              else Lookup(rows, k, InviteKey)
    {
      if Lookup(rows, k, InviteKey).Some? {
        var y := Lookup(rows, k, InviteKey).value;
        var i :| 0 <= i < |rows| && rows[i] == y;
        LookupUnique(rows, y, InviteKey);
        LookupUnique(r, r[i], InviteKey);
      }
    }
  }

  class CollaborationInviteDao {
    var rows: seq<CollaborationInvite>

    ghost predicate Valid()
      reads this
    {
      UniqueKeys(rows, InviteKey)
    }

    constructor ()
      ensures rows == [] && Valid()
    {
      rows := [];
    }

    /** `@Insert(onConflict = REPLACE)`. */
    method InsertInvite(invite: CollaborationInvite)
      requires Valid()
      modifies this
      ensures Valid()
      ensures rows == Upsert(old(rows), invite, InviteKey)
    {
      UpsertUnique(rows, invite, InviteKey);
      rows := Upsert(rows, invite, InviteKey);
    }

    /** `@Update`: the row with the same invite id becomes `invite`. */
    method UpdateInvite(invite: CollaborationInvite)
      requires Valid()
      modifies this
      ensures Valid()
      ensures rows == Replace(old(rows), invite, InviteKey)
    {
      ReplaceUnique(rows, invite, InviteKey);
      rows := Replace(rows, invite, InviteKey);
    }

    /** `@Delete`: by primary key. */
    method DeleteInvite(invite: CollaborationInvite)
      requires Valid()
      modifies this
      ensures Valid()
      ensures rows == RemoveKey(old(rows), invite.inviteId, InviteKey)
    {
      RemoveKeyUnique(rows, invite.inviteId, InviteKey);
      rows := RemoveKey(rows, invite.inviteId, InviteKey);
    }

    /** `SELECT * ... WHERE invite_id = :inviteId`; `None` stands for null. */
    function GetInviteById(inviteId: string): (r: Option<CollaborationInvite>)
      reads this
      ensures r.Some? ==> r.value in rows && r.value.inviteId == inviteId
      ensures r.None? <==> forall i :: i in rows ==> i.inviteId != inviteId
    {
      Lookup(rows, inviteId, InviteKey)
    }

    /** `SELECT * ... WHERE project_id = :projectId`. */
    function GetInvitesForProject(projectId: string): (r: seq<CollaborationInvite>)
      reads this
      ensures forall i :: multiset(r)[i] == if i.projectId == projectId then multiset(rows)[i] else 0
    {
      FilterMultiset(rows, (i: CollaborationInvite) => ForProject(i, projectId));
      Filter(rows, (i: CollaborationInvite) => ForProject(i, projectId))
    }

    /** `SELECT * ... WHERE inviter_user_id = :userId`. */
    function GetInvitesSentByUser(userId: string): (r: seq<CollaborationInvite>)
      reads this
      ensures forall i :: multiset(r)[i] == if i.inviterUserId == userId then multiset(rows)[i] else 0
    {
      FilterMultiset(rows, (i: CollaborationInvite) => SentBy(i, userId));
      Filter(rows, (i: CollaborationInvite) => SentBy(i, userId))
    }

    /** `SELECT * ... WHERE invited_email = :email`. */
    function GetInvitesForEmail(email: string): (r: seq<CollaborationInvite>)
      reads this
      ensures forall i :: multiset(r)[i] == if i.invitedEmail == email then multiset(rows)[i] else 0
    {
      FilterMultiset(rows, (i: CollaborationInvite) => ForEmail(i, email));
      Filter(rows, (i: CollaborationInvite) => ForEmail(i, email))
    }

    /** `SELECT * ... WHERE invited_email = :email AND status = 'pending'`. */
    function GetPendingInvitesForEmail(email: string): (r: seq<CollaborationInvite>)
      reads this
      ensures forall i :: multiset(r)[i] ==
                if i.invitedEmail == email && i.status == "pending" then multiset(rows)[i] else 0
    {
      FilterMultiset(rows, (i: CollaborationInvite) => PendingFor(i, email));
      Filter(rows, (i: CollaborationInvite) => PendingFor(i, email))
    }

    /** The pending invites are the email's invites that are still pending. */
    lemma PendingAreInvitesForEmail(email: string)
      ensures multiset(GetPendingInvitesForEmail(email)) <= multiset(GetInvitesForEmail(email))
      ensures forall i :: i in GetPendingInvitesForEmail(email) <==> i in GetInvitesForEmail(email) && i.status == "pending"
    {
      var p := GetPendingInvitesForEmail(email);
      var e := GetInvitesForEmail(email);
      assert forall i :: multiset(p)[i] <= multiset(e)[i];
    }

    /** `UPDATE ... SET status = :status WHERE invite_id = :inviteId`. */
    method UpdateInviteStatus(inviteId: string, status: string)
      requires Valid()
      modifies this
      ensures Valid()
      ensures rows == WithStatus(old(rows), inviteId, status)
    {
      WithStatusKeepsKeys(rows, inviteId, status);
      rows := WithStatus(rows, inviteId, status);
    }
  }
}
