/**
 * The plain Room entities next to Task: users, projects, task comments and
 * collaboration invites. Each is a value; Java `Date` columns are epoch
 * milliseconds and nullable columns are `Option`s.
 */
module Entities {
  import opened Wrappers

  /** A row of `users`; `userId` is the primary key. */
  datatype User = User(
    userId: string,
    email: string,
    name: string,
    photoUrl: Option<string>,
    isCurrentUser: bool,
    createdAt: int,
    updatedAt: int)

  /** A row of `projects`; `projectId` is the primary key. */
  datatype Project = Project(
    projectId: string,
    name: string,
    description: Option<string>,
    ownerUserId: string,
    colorHex: Option<string>,
    createdAt: int,
    updatedAt: int)

  /** A row of `task_comments`; `commentId` is the primary key. */
  datatype TaskComment = TaskComment(
    commentId: string,
    taskId: string,
    userId: string,
    text: string,
    createdAt: int,
    updatedAt: Option<int>)

  /** A row of `collaboration_invites`; `inviteId` is the primary key. */
  datatype CollaborationInvite = CollaborationInvite(
    inviteId: string,
    projectId: string,
    inviterUserId: string,
    invitedEmail: string,
    role: string,
    status: string,
    createdAt: int,
    resolvedAt: Option<int>)

  function UserKey(u: User): string { u.userId }
  function ProjectKey(p: Project): string { p.projectId }
  function CommentKey(c: TaskComment): string { c.commentId }
  function InviteKey(i: CollaborationInvite): string { i.inviteId }
}
