/**
 * CollaborationViewModel: the checks before a project invite is built, the
 * placeholder pending-invite list and the local removal of an answered
 * invite. The background executor's work is one synchronous step; the
 * project the repository lookup yields after its wait, fresh invite ids
 * and the clock are parameters. The invite table is not written: the
 * source builds the invite and leaves the insert out.
 */
module Collaboration {
  import opened Wrappers
  import opened Entities
  import opened Tables
  import opened InviteTable
  import opened CurrentUser

  const MISSING_FIELDS := "Не всі поля заповнені"
  const NOT_SIGNED_IN := "Помилка: спочатку увійдіть в систему"
  const PROJECT_NOT_FOUND := "Проект не знайдено"
  const NOT_OWNER := "Ви не є власником цього проекту"
  const INVITE_SENT_PREFIX := "Запрошення надіслано на "
  const NO_EMAIL := "Email не вказано"
  const NO_INVITE_ID := "Помилка: ID запрошення не вказано"
  const INVITE_ACCEPTED := "Запрошення прийнято. Тепер ви можете працювати з проектом."
  const INVITE_REJECTED := "Запрошення відхилено."
  const UNKNOWN_PROJECT := "Невідомий проект"
  const PLACEHOLDER_PROJECT := "Тестовий проект"
  const UNKNOWN_USER := "Невідомий користувач"
  const PLACEHOLDER_USER := "Адміністратор"

  /** Java's `s == null || s.isEmpty()`. */
  predicate Blank(s: Option<string>) {
    s.None? || s.value == ""
  }

  /** The outcome of `inviteUserToProject`: the status message and the invite built, if any. */
  datatype InviteOutcome = Refused(message: string) | Invited(message: string, invite: CollaborationInvite)

  /** `inviteUserToProject`'s checks, in the source's order. */
  function DecideInvite(email: Option<string>, projectId: Option<string>, role: Option<string>,
                        currentUser: Option<User>, project: Option<Project>,
                        inviteId: string, now: int): (o: InviteOutcome)
    ensures Blank(email) || Blank(projectId) || role.None? ==> o == Refused(MISSING_FIELDS)
    ensures o.Invited? <==>
              !Blank(email) && !Blank(projectId) && role.Some? && currentUser.Some? && project.Some?
              && project.value.ownerUserId == currentUser.value.userId
    ensures o.Refused? && !(Blank(email) || Blank(projectId) || role.None?) ==>
              (currentUser.None? ==> o.message == NOT_SIGNED_IN)
              && (currentUser.Some? && project.None? ==> o.message == PROJECT_NOT_FOUND)
              && (currentUser.Some? && project.Some? ==> o.message == NOT_OWNER)
    ensures o.Invited? ==>
              o.message == INVITE_SENT_PREFIX + email.value
              && o.invite == CollaborationInvite(inviteId, projectId.value, currentUser.value.userId,
                                                 email.value, role.value, PENDING, now, None)
  {
    if Blank(email) || Blank(projectId) || role.None? then Refused(MISSING_FIELDS)
    else if currentUser.None? then Refused(NOT_SIGNED_IN)
    else if project.None? then Refused(PROJECT_NOT_FOUND)
    else if project.value.ownerUserId != currentUser.value.userId then Refused(NOT_OWNER)
    else
      Invited(INVITE_SENT_PREFIX + email.value,
              CollaborationInvite(inviteId, projectId.value, currentUser.value.userId,
                                  email.value, role.value, PENDING, now, None))
  }

  /** A built invite is one the invitee's pending-invite query would return, sent by the project's owner. */
  lemma BuiltInviteIsPendingForInvitee(email: Option<string>, projectId: Option<string>, role: Option<string>,
                                       currentUser: Option<User>, project: Option<Project>,
                                       inviteId: string, now: int)
    requires DecideInvite(email, projectId, role, currentUser, project, inviteId, now).Invited?
    ensures var i := DecideInvite(email, projectId, role, currentUser, project, inviteId, now).invite;
            PendingFor(i, email.value) && SentBy(i, project.value.ownerUserId)
  {
  }

  /** `createMockInvites`: two pending placeholder invites addressed to `email`. */
  function MockInvites(email: string, id1: string, id2: string, now: int): (r: seq<CollaborationInvite>)
    ensures |r| == 2
    ensures forall i :: i in r ==> PendingFor(i, email)
    ensures r[0].projectId == "project_1" && r[0].inviterUserId == "admin_001" && r[0].role == "editor"
    ensures r[1].projectId == "project_2" && r[1].inviterUserId == "admin_002" && r[1].role == "viewer"
  {
    [CollaborationInvite(id1, "project_1", "admin_001", email, "editor", PENDING, now, None),
     CollaborationInvite(id2, "project_2", "admin_002", email, "viewer", PENDING, now, None)]
  }

  /** The placeholder list is what the invitee's pending-invite query would return from it. */
  lemma MockInvitesArePending(email: string, id1: string, id2: string, now: int)
    ensures Filter(MockInvites(email, id1, id2, now), (i: CollaborationInvite) => PendingFor(i, email))
            == MockInvites(email, id1, id2, now)
  {
    var p := (i: CollaborationInvite) => PendingFor(i, email);
    FilterAll(MockInvites(email, id1, id2, now), p);
  }

  /** The list after removing the first invite whose id matches; unchanged when none does. */
  function RemoveFirst(invites: seq<CollaborationInvite>, inviteId: string): (r: seq<CollaborationInvite>)
    ensures (forall i :: i in invites ==> i.inviteId != inviteId) ==> r == invites
    ensures (exists i :: i in invites && i.inviteId == inviteId) ==> |r| == |invites| - 1
    ensures multiset(r) <= multiset(invites)
  {
    if invites == [] then []
    else
      assert invites == [invites[0]] + invites[1..];
      if invites[0].inviteId == inviteId then invites[1..]
      else [invites[0]] + RemoveFirst(invites[1..], inviteId)
  }

  /** Removal drops exactly the element at the first matching index and keeps the rest in order. */
  lemma {:induction false} RemoveFirstAt(invites: seq<CollaborationInvite>, inviteId: string, k: nat)
    requires k < |invites| && invites[k].inviteId == inviteId
    requires forall j :: 0 <= j < k ==> invites[j].inviteId != inviteId
    ensures RemoveFirst(invites, inviteId) == invites[..k] + invites[k + 1..]
  {
    if k == 0 {
      assert invites[..0] + invites[1..] == invites[1..];
    } else {
      RemoveFirstAt(invites[1..], inviteId, k - 1);
      HeadThenGap(invites, k);
    }
  }

  /** The head, then the tail with its element `k - 1` removed, is the whole with element `k` removed. */
  lemma HeadThenGap<T>(s: seq<T>, k: nat)
    requires 0 < k < |s|
    ensures [s[0]] + (s[1..][..k - 1] + s[1..][k..]) == s[..k] + s[k + 1..]
  {
    assert s[1..][..k - 1] == s[1..k];
    assert s[1..][k..] == s[k + 1..];
    AppendAssoc([s[0]], s[1..k], s[k + 1..]);
    assert s[..k] == [s[0]] + s[1..k];
  }

  class CollaborationViewModel {
    const users: CurrentUserManager
    /** The last message posted to `inviteStatus`. */
    var inviteStatus: Option<string>
    var pendingInvites: Option<seq<CollaborationInvite>>

    constructor (users: CurrentUserManager)
      ensures this.users == users && inviteStatus.None? && pendingInvites.None?
    {
      this.users := users;
      inviteStatus := None;
      pendingInvites := None;
    }

    /** `inviteUserToProject`; `project` is what the repository lookup holds once the wait is over. */
    method InviteUserToProject(email: Option<string>, projectId: Option<string>, role: Option<string>,
                               project: Option<Project>, inviteId: string, now: int)
      returns (built: Option<CollaborationInvite>)
      modifies this`inviteStatus
      ensures var o := DecideInvite(email, projectId, role, users.currentUser, project, inviteId, now);
              inviteStatus == Some(o.message) && (built.Some? <==> o.Invited?) && (o.Invited? ==> built.value == o.invite)
    {
      var o := DecideInvite(email, projectId, role, users.currentUser, project, inviteId, now);
      inviteStatus := Some(o.message);
      built := if o.Invited? then Some(o.invite) else None;
    }

    /** `loadPendingInvitesForUser`: an empty email posts an error; otherwise the placeholder list is published. */
    method LoadPendingInvitesForUser(email: Option<string>, id1: string, id2: string, now: int)
      modifies this
      ensures Blank(email) ==> inviteStatus == Some(NO_EMAIL) && pendingInvites == old(pendingInvites)
      ensures !Blank(email) ==> pendingInvites == Some(MockInvites(email.value, id1, id2, now))
                                && inviteStatus == old(inviteStatus)
    {
      if Blank(email) {
        inviteStatus := Some(NO_EMAIL);
        return;
      }
      pendingInvites := Some(MockInvites(email.value, id1, id2, now));
    }

    /** `respondToInvite`: posts the answer and drops the first invite with that id from the shown list. */
    method RespondToInvite(inviteId: Option<string>, accept: bool)
      modifies this
      ensures Blank(inviteId) ==> inviteStatus == Some(NO_INVITE_ID) && pendingInvites == old(pendingInvites)
      ensures !Blank(inviteId) && users.currentUser.None? ==>
                inviteStatus == Some(NOT_SIGNED_IN) && pendingInvites == old(pendingInvites)
      ensures !Blank(inviteId) && users.currentUser.Some? ==>
                inviteStatus == Some(if accept then INVITE_ACCEPTED else INVITE_REJECTED)
                && (old(pendingInvites).None? ==> pendingInvites.None?)
                && (old(pendingInvites).Some? ==>
                      pendingInvites == Some(RemoveFirst(old(pendingInvites).value, inviteId.value)))
    {
      if Blank(inviteId) {
        inviteStatus := Some(NO_INVITE_ID);
        return;
      }
      if users.currentUser.None? {
        inviteStatus := Some(NOT_SIGNED_IN);
        return;
      }
      inviteStatus := Some(if accept then INVITE_ACCEPTED else INVITE_REJECTED);
      if pendingInvites.Some? {
        var current := pendingInvites.value;
        var id := inviteId.value;
        var i := 0;
        while i < |current|
          invariant 0 <= i <= |current|
          invariant forall j :: 0 <= j < i ==> current[j].inviteId != id
        {
          if current[i].inviteId == id {
            RemoveFirstAt(current, id, i);
            current := current[..i] + current[i + 1..];
            break;
          }
          i := i + 1;
        }
        pendingInvites := Some(current);
      }
    }

    /** `getProjectName`: a fixed fallback for an empty id, the placeholder name otherwise. */
    function GetProjectName(projectId: Option<string>): (name: string)
      ensures Blank(projectId) ==> name == UNKNOWN_PROJECT
      ensures !Blank(projectId) ==> name == PLACEHOLDER_PROJECT
    {
      if Blank(projectId) then UNKNOWN_PROJECT else PLACEHOLDER_PROJECT
    }

    /** `getUserName`: a fixed fallback for an empty id, the placeholder name otherwise. */
    function GetUserName(userId: Option<string>): (name: string)
      ensures Blank(userId) ==> name == UNKNOWN_USER
      ensures !Blank(userId) ==> name == PLACEHOLDER_USER
    {
      if Blank(userId) then UNKNOWN_USER else PLACEHOLDER_USER
    }
  }
}
