/**
 * TaskCommentDao: the `task_comments` table and the statements declared
 * on it.
 */
module CommentTable {
  import opened Wrappers
  import opened Tables
  import opened Entities

  /** `ORDER BY created_at DESC`. */
  predicate NewerFirst(a: TaskComment, b: TaskComment) {
    a.createdAt >= b.createdAt
  }

  lemma NewerFirstIsTotalPreorder()
    ensures TotalPreorder(NewerFirst)
  {
  }

  predicate OfTask(c: TaskComment, taskId: string) {
    c.taskId == taskId
  }

  /**
   * The `task_id ... ON DELETE CASCADE` action on comments: once the tasks
   * whose ids are in `taskIds` are deleted, their comments go with them.
   */
  function OnTasksDeleted(comments: seq<TaskComment>, taskIds: set<string>): (r: seq<TaskComment>)
    ensures forall c :: c in r <==> c in comments && c.taskId !in taskIds
    ensures forall c :: multiset(r)[c] == if c.taskId in taskIds then 0 else multiset(comments)[c]
  {
    FilterMultiset(comments, (c: TaskComment) => c.taskId !in taskIds);
    Filter(comments, (c: TaskComment) => c.taskId !in taskIds)
  }

  lemma OnTasksDeletedUnique(comments: seq<TaskComment>, taskIds: set<string>)
    requires UniqueKeys(comments, CommentKey)
    ensures UniqueKeys(OnTasksDeleted(comments, taskIds), CommentKey)
  {
    FilterUnique(comments, (c: TaskComment) => c.taskId !in taskIds, CommentKey);
  }

  class TaskCommentDao {
    var rows: seq<TaskComment>

    ghost predicate Valid()
      reads this
    {
      UniqueKeys(rows, CommentKey)
    }

    constructor ()
      ensures rows == [] && Valid()
    {
      rows := [];
    }

    /** `@Insert(onConflict = REPLACE)`. */
    method Insert(comment: TaskComment)
      requires Valid()
      modifies this
      ensures Valid()
      ensures rows == Upsert(old(rows), comment, CommentKey)
    {
      UpsertUnique(rows, comment, CommentKey);
      rows := Upsert(rows, comment, CommentKey);
    }

    /** `@Update`: the row with the same comment id becomes `comment`. */
    method Update(comment: TaskComment)
      requires Valid()
      modifies this
      ensures Valid()
      ensures rows == Replace(old(rows), comment, CommentKey)
    {
      ReplaceUnique(rows, comment, CommentKey);
      rows := Replace(rows, comment, CommentKey);
    }

    /** `@Delete`: by primary key. */
    method Delete(comment: TaskComment)
      requires Valid()
      modifies this
      ensures Valid()
      ensures rows == RemoveKey(old(rows), comment.commentId, CommentKey)
    {
      RemoveKeyUnique(rows, comment.commentId, CommentKey);
      rows := RemoveKey(rows, comment.commentId, CommentKey);
    }

    /** `SELECT * ... WHERE task_id = :taskId ORDER BY created_at DESC`. */
    function GetCommentsForTask(taskId: string): (r: seq<TaskComment>)
      reads this
      ensures forall c :: multiset(r)[c] == if c.taskId == taskId then multiset(rows)[c] else 0
      ensures forall i, j :: 0 <= i < j < |r| ==> r[i].createdAt >= r[j].createdAt
    {
      var mine := Filter(rows, (c: TaskComment) => OfTask(c, taskId));
      FilterMultiset(rows, (c: TaskComment) => OfTask(c, taskId));
      NewerFirstIsTotalPreorder();
      SortSorted(mine, NewerFirst);
      Sort(mine, NewerFirst)
    }

    /** `SELECT * ... WHERE comment_id = :commentId`; `None` stands for null. */
    function GetCommentById(commentId: string): (r: Option<TaskComment>)
      reads this
      ensures r.Some? ==> r.value in rows && r.value.commentId == commentId
      ensures r.None? <==> forall c :: c in rows ==> c.commentId != commentId
    {
      Lookup(rows, commentId, CommentKey)
    }

    /** `SELECT COUNT(*) ... WHERE task_id = :taskId`. */
    function GetCommentCountForTask(taskId: string): (r: nat)
      reads this
      ensures r == |GetCommentsForTask(taskId)|
    {
      CountOfTask(rows, taskId)
    }

    /** `DELETE FROM task_comments WHERE task_id = :taskId`. */
    method DeleteAllCommentsForTask(taskId: string)
      requires Valid()
      modifies this
      ensures Valid()
      ensures rows == Filter(old(rows), (c: TaskComment) => !OfTask(c, taskId))
      ensures forall c :: c in rows <==> c in old(rows) && c.taskId != taskId
    {
      FilterUnique(rows, (c: TaskComment) => !OfTask(c, taskId), CommentKey);
      rows := Filter(rows, (c: TaskComment) => !OfTask(c, taskId));
    }
  }

  /** The number of comments on one task, counted row by row. */
  function CountOfTask(rows: seq<TaskComment>, taskId: string): (r: nat)
    ensures r == |Filter(rows, (c: TaskComment) => OfTask(c, taskId))|
  {
    if rows == [] then 0
    else (if rows[0].taskId == taskId then 1 else 0) + CountOfTask(rows[1..], taskId)
  }
}
