/**
 * ProjectDao: the `projects` table and the statements declared on it.
 * Deleting a project, directly or by an `INSERT OR REPLACE` that
 * conflicts, applies the `project_id ... ON DELETE SET_NULL` action of the
 * tasks that belong to it.
 */
module ProjectTable {
  import opened Wrappers
  import opened Tables
  import opened Entities
  import opened TaskEntity
  import opened TaskTable

  /** `ORDER BY name ASC` under the BINARY collation. */
  predicate NameFirst(a: Project, b: Project) {
    StrLe(a.name, b.name)
  }

  lemma NameFirstIsTotalPreorder()
    ensures TotalPreorder(NameFirst)
  {
    forall a: Project, b: Project ensures NameFirst(a, b) || NameFirst(b, a) {
      StrLeTotal(a.name, b.name);
    }
    forall a: Project, b: Project, c: Project | NameFirst(a, b) && NameFirst(b, c) ensures NameFirst(a, c) {
      StrLeTransitive(a.name, b.name, c.name);
    }
  }

  predicate OwnedBy(p: Project, userId: string) {
    p.ownerUserId == userId
  }

  class ProjectDao {
    var rows: seq<Project>

    ghost predicate Valid()
      reads this
    {
      UniqueKeys(rows, ProjectKey)
    }

    constructor ()
      ensures rows == [] && Valid()
    {
      rows := [];
    }

    /**
     * `@Insert(onConflict = REPLACE)`: a project already stored under the id
     * is deleted first, so its tasks lose their project (`ON DELETE
     * SET_NULL`), and the new row is appended.
     */
    method InsertProject(project: Project, tasks: TaskDao)
      requires Valid() && tasks.Valid()
      modifies this, tasks
      ensures Valid() && tasks.Valid()
      ensures rows == Upsert(old(rows), project, ProjectKey)
      ensures tasks.rows == if Lookup(old(rows), project.projectId, ProjectKey).Some?
                            then OnProjectDeleted(old(tasks.rows), project.projectId) else old(tasks.rows)
    {
      if Lookup(rows, project.projectId, ProjectKey).Some? {
        var after := OnProjectDeleted(tasks.rows, project.projectId);
        assert forall i :: 0 <= i < |after| ==> TaskKey(after[i]) == TaskKey(tasks.rows[i]);
        tasks.rows := after;
      }
      UpsertUnique(rows, project, ProjectKey);
      rows := Upsert(rows, project, ProjectKey);
    }

    /** `@Update`: the row with the same project id becomes `project`. */
    method UpdateProject(project: Project)
      requires Valid()
      modifies this
      ensures Valid()
      ensures rows == Replace(old(rows), project, ProjectKey)
    {
      ReplaceUnique(rows, project, ProjectKey);
      rows := Replace(rows, project, ProjectKey);
    }

    /**
     * `@Delete`: by primary key. The `ON DELETE SET NULL` action fires only
     * when a row is actually deleted: then the project's tasks lose their
     * project; a project that is not stored deletes nothing and changes no task.
     */
    method DeleteProject(project: Project, tasks: TaskDao)
      requires Valid() && tasks.Valid()
      modifies this, tasks
      ensures Valid() && tasks.Valid()
      ensures rows == RemoveKey(old(rows), project.projectId, ProjectKey)
      ensures tasks.rows == if Lookup(old(rows), project.projectId, ProjectKey).Some?
                            then OnProjectDeleted(old(tasks.rows), project.projectId) else old(tasks.rows)
    {
      if Lookup(rows, project.projectId, ProjectKey).Some? {
        var after := OnProjectDeleted(tasks.rows, project.projectId);
        assert forall i :: 0 <= i < |after| ==> TaskKey(after[i]) == TaskKey(tasks.rows[i]);
        tasks.rows := after;
      }
      RemoveKeyUnique(rows, project.projectId, ProjectKey);
      rows := RemoveKey(rows, project.projectId, ProjectKey);
    }

    /** `SELECT * FROM projects ORDER BY name ASC`. */
    function GetAllProjects(): (r: seq<Project>)
      reads this
      ensures multiset(r) == multiset(rows)
      ensures forall i, j :: 0 <= i < j < |r| ==> StrLe(r[i].name, r[j].name)
    {
      NameFirstIsTotalPreorder();
      SortSorted(rows, NameFirst);
      Sort(rows, NameFirst)
    }

    /** `SELECT * FROM projects WHERE project_id = :projectId`; `None` stands for null. */
    function GetProjectById(projectId: string): (r: Option<Project>)
      reads this
      ensures r.Some? ==> r.value in rows && r.value.projectId == projectId
      ensures r.None? <==> forall p :: p in rows ==> p.projectId != projectId
    {
      Lookup(rows, projectId, ProjectKey)
    }

    /** `... WHERE owner_user_id = :userId ORDER BY name ASC`. */
    function GetProjectsByOwner(userId: string): (r: seq<Project>)
      reads this
      ensures forall p :: multiset(r)[p] == if p.ownerUserId == userId then multiset(rows)[p] else 0
      ensures forall i, j :: 0 <= i < j < |r| ==> StrLe(r[i].name, r[j].name)
    {
      var mine := Filter(rows, (p: Project) => OwnedBy(p, userId));
      FilterMultiset(rows, (p: Project) => OwnedBy(p, userId));
      NameFirstIsTotalPreorder();
      SortSorted(mine, NameFirst);
      Sort(mine, NameFirst)
    }
  }
}
