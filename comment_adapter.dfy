/**
 * CommentAdapter: how one comment of a task is shown — author label, date,
 * edit/delete visibility — the DiffUtil callbacks, and the user cache the
 * author labels come from. The locale date pattern is a parameter.
 */
module CommentList {
  import opened Wrappers
  import opened Entities

  const UNKNOWN_AUTHOR := "Пользователь"

  /** The author label: the cached user's name, or the fixed fallback. */
  function AuthorLabel(cache: map<string, User>, userId: string): (author: string)
    ensures userId in cache ==> author == cache[userId].name
    ensures userId !in cache ==> author == UNKNOWN_AUTHOR
  {
    if userId in cache then cache[userId].name else UNKNOWN_AUTHOR
  }

  /** The instant the comment shows: its last edit if there is one, else its creation. */
  function ShownDate(c: TaskComment): (d: int)
    ensures c.updatedAt.Some? ==> d == c.updatedAt.value
    ensures c.updatedAt.None? ==> d == c.createdAt
  {
    c.updatedAt.GetOr(c.createdAt)
  }

  /** `formatDate`: the formatted instant, "" for null. */
  function FormatDate(d: Option<int>, format: int -> string): (text: string)
    ensures d.None? ==> text == ""
    ensures d.Some? ==> text == format(d.value)
  {
    if d.Some? then format(d.value) else ""
  }

  /** Edit and delete show only on the current user's own comments. */
  predicate IsOwnComment(c: TaskComment, currentUserId: Option<string>) {
    currentUserId.Some? && c.userId == currentUserId.value
  }

  /** With nobody signed in no comment offers edit or delete. */
  lemma NoOwnCommentsSignedOut(c: TaskComment)
    ensures !IsOwnComment(c, None)
  {
  }

  /** Ownership is exactly authorship by the signed-in user. */
  lemma OwnCommentMeansAuthor(c: TaskComment, currentUserId: Option<string>)
    ensures IsOwnComment(c, currentUserId) <==> currentUserId == Some(c.userId)
  {
  }

  /** `areItemsTheSame`. */
  predicate AreItemsTheSame(a: TaskComment, b: TaskComment) {
    a.commentId == b.commentId
  }

  /**
   * `areContentsTheSame`: text and edit time. It dereferences the old
   * item's `updatedAt`, so the old item must have one. Every comment the
   * app builds has one (the constructor copies the creation time into it,
   * and `updateComment` sets it), so the requirement only rules out rows
   * whose `updatedAt` was set to null.
   */
  predicate AreContentsTheSame(a: TaskComment, b: TaskComment)
    requires a.updatedAt.Some?
  {
    a.text == b.text && a.updatedAt == b.updatedAt
  }

  /** What `onBindViewHolder` puts on screen for one comment. */
  datatype RenderedComment = RenderedComment(author: string, text: string, date: string, actionsVisible: bool)

  function RenderComment(c: TaskComment, cache: map<string, User>, currentUserId: Option<string>,
                         format: int -> string): RenderedComment
  {
    RenderedComment(AuthorLabel(cache, c.userId), c.text, FormatDate(Some(ShownDate(c)), format),
                    IsOwnComment(c, currentUserId))
  }

  /**
   * The diff is sound for the same item: the same comment with the same
   * text and edit time renders identically.
   */
  lemma SameContentsRenderSame(a: TaskComment, b: TaskComment, cache: map<string, User>,
                               currentUserId: Option<string>, format: int -> string)
    requires a.updatedAt.Some? && AreContentsTheSame(a, b)
    requires a.userId == b.userId
    ensures RenderComment(a, cache, currentUserId, format) == RenderComment(b, cache, currentUserId, format)
  {
  }

  /** An edited comment shows its edit time, whenever it was created. */
  lemma EditedCommentShowsEditTime(c: TaskComment, now: int)
    ensures ShownDate(c.(updatedAt := Some(now))) == now
  {
  }

  class CommentAdapter {
    var userCache: map<string, User>
    const currentUserId: Option<string>

    constructor (currentUserId: Option<string>)
      ensures userCache == map[] && this.currentUserId == currentUserId
    {
      userCache := map[];
      this.currentUserId := currentUserId;
    }

    /** `updateUserCache`: a non-null map replaces the cache, null leaves it. */
    method UpdateUserCache(users: Option<map<string, User>>)
      modifies this
      ensures users.Some? ==> userCache == users.value
      ensures users.None? ==> userCache == old(userCache)
    {
      if users.Some? {
        userCache := map[];
        userCache := userCache + users.value;
      }
    }

    function Render(c: TaskComment, format: int -> string): (r: RenderedComment)
      reads this
      ensures r.author == AuthorLabel(userCache, c.userId)
      ensures r.actionsVisible <==> currentUserId == Some(c.userId)
    {
      RenderComment(c, userCache, currentUserId, format)
    }
  }
}
