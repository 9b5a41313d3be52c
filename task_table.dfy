/** The task service's handlers over the task collection. The collection is
    only ever used through single-document operations keyed by `id`, so it
    is modelled as a finite map from id to document. */
module TaskService {
  import opened TaskModel

  /** An `HTTPException` raised by a handler. */
  datatype HttpError = HttpError(status: int, detail: string)

  const NoUpdateData := HttpError(400, "No update data provided")
  const TaskNotFound := HttpError(404, "Task not found")

  const DeletedMessage := "Task deleted successfully"
  const CompletedMessage := "Task completed successfully"

  /** The `to_list` bound of the listing query. */
  const ListCap := 1000

  datatype Result<+T> = Ok(value: T) | Err(error: HttpError)

  /** Every document is stored under its own id. */
  ghost predicate KeyedById(m: map<string, Task>)
  {
    forall id :: id in m ==> m[id].id == id
  }

  /** Ordered by `created_at` descending: the newest task comes first. */
  predicate NewestFirst(s: seq<Task>)
  {
    forall i, j :: 0 <= i < j < |s| ==> s[i].createdAt >= s[j].createdAt
  }

  /** `r` is an answer the listing query may give on table `m`: stored open
      tasks only, each once, newest first, at most `ListCap` of them, and an
      open task is left out only when the cap is reached and it is no newer
      than the last one listed. Ties in `created_at` may come in any order. */
  ghost predicate IsListing(m: map<string, Task>, r: seq<Task>)
  {
    && |r| <= ListCap
    && (forall i :: 0 <= i < |r| ==> r[i].id in m && m[r[i].id] == r[i] && !r[i].completed)
    && DistinctIds(r)
    && NewestFirst(r)
    && (forall id :: id in m && !m[id].completed && m[id] !in r ==>
          |r| == ListCap && m[id].createdAt <= r[|r| - 1].createdAt)
  }

  /** Where a task goes in a newest-first list: before the first entry that
      is strictly older. */
  function InsertionPoint(s: seq<Task>, t: Task): (k: nat)
    ensures k <= |s|
    ensures forall i :: 0 <= i < k ==> s[i].createdAt >= t.createdAt
    ensures k < |s| ==> s[k].createdAt < t.createdAt
  {
    if s == [] || s[0].createdAt < t.createdAt then 0
    else 1 + InsertionPoint(s[1..], t)
  }

  /** Inserts `t` into a newest-first list, keeping it newest first, with
      `t` after the entries of equal age. */
  function InsertNewest(s: seq<Task>, t: Task): (r: seq<Task>)
    requires NewestFirst(s)
    ensures |r| == |s| + 1
    ensures forall x :: x in r <==> x in s || x == t
    ensures NewestFirst(r)
    ensures DistinctIds(s) && (forall i :: 0 <= i < |s| ==> s[i].id != t.id) ==> DistinctIds(r)
  {
    var k := InsertionPoint(s, t);
    var r := s[..k] + [t] + s[k..];
    assert forall x :: x in r <==> x in s || x == t by {
      assert s == s[..k] + s[k..];
    }
    InsertedAt(s, t, k);
    r
  }

  /** Inserting at the insertion point keeps the list newest first, and
      keeps ids distinct when the new id is absent. */
  lemma InsertedAt(s: seq<Task>, t: Task, k: nat)
    requires NewestFirst(s) && k == InsertionPoint(s, t)
    ensures NewestFirst(s[..k] + [t] + s[k..])
    ensures DistinctIds(s) && (forall i :: 0 <= i < |s| ==> s[i].id != t.id) ==> DistinctIds(s[..k] + [t] + s[k..])
  {
    InsertedOrdered(s, t, k);
    if DistinctIds(s) && (forall i :: 0 <= i < |s| ==> s[i].id != t.id) {
      InsertedDistinct(s, t, k);
    }
  }

  lemma InsertedOrdered(s: seq<Task>, t: Task, k: nat)
    requires NewestFirst(s) && k == InsertionPoint(s, t)
    ensures NewestFirst(s[..k] + [t] + s[k..])
  {
    var r := s[..k] + [t] + s[k..];
    forall i, j | 0 <= i < j < |r| ensures r[i].createdAt >= r[j].createdAt {
      EntryOfInsert(s, t, k, i);
      EntryOfInsert(s, t, k, j);
      if i < k && k < j {
        assert s[i].createdAt >= t.createdAt > s[k].createdAt >= s[j - 1].createdAt;
      } else if i == k && k < j {
        assert s[k].createdAt >= s[j - 1].createdAt;
      }
    }
  }

  lemma InsertedDistinct(s: seq<Task>, t: Task, k: nat)
    requires k <= |s| && DistinctIds(s) && (forall i :: 0 <= i < |s| ==> s[i].id != t.id)
    ensures DistinctIds(s[..k] + [t] + s[k..])
  {
    var r := s[..k] + [t] + s[k..];
    forall i, j | 0 <= i < j < |r| ensures r[i].id != r[j].id {
      EntryOfInsert(s, t, k, i);
      EntryOfInsert(s, t, k, j);
    }
  }

  lemma EntryOfInsert(s: seq<Task>, t: Task, k: nat, i: int)
    requires k <= |s| && 0 <= i <= |s|
    ensures (s[..k] + [t] + s[k..])[i] == if i < k then s[i] else if i == k then t else s[i - 1]
  {
  }

  /** The first `ListCap` of all open tasks, newest first, are a listing. */
  lemma TruncatedIsListing(m: map<string, Task>, open: seq<Task>)
    requires forall x :: x in open ==> x.id in m && m[x.id] == x && !x.completed
    requires DistinctIds(open) && NewestFirst(open)
    requires forall id :: id in m && !m[id].completed ==> m[id] in open
    ensures IsListing(m, if |open| <= ListCap then open else open[..ListCap])
  {
    if |open| > ListCap {
      var r := open[..ListCap];
      forall id | id in m && !m[id].completed && m[id] !in r
        ensures m[id].createdAt <= r[|r| - 1].createdAt
      {
        var j :| 0 <= j < |open| && open[j] == m[id];
        assert j >= ListCap;
      }
    }
  }

  /** A completed task is never listed. */
  lemma CompletedNeverListed(m: map<string, Task>, r: seq<Task>, id: string)
    requires IsListing(m, r)
    requires id in m && m[id].completed
    ensures forall i :: 0 <= i < |r| ==> r[i].id != id
  {
  }

  /** When the table holds at most `ListCap` open tasks, the listing holds
      every one of them. */
  lemma SmallTableListedInFull(m: map<string, Task>, r: seq<Task>, id: string)
    requires IsListing(m, r)
    requires id in m && !m[id].completed
    requires |r| < ListCap
    ensures m[id] in r
  {
  }

  class TaskTable {
    var tasks: map<string, Task>

    ghost predicate Valid()
      reads this
    {
      KeyedById(tasks)
    }

    constructor ()
      ensures Valid() && tasks == map[]
    {
      tasks := map[];
    }

    /** POST /tasks: stores and returns a new task built from the body, under
        the generated id `freshId` and the clock reading `now`. */
    method Create(body: TaskCreate, freshId: string, now: int) returns (t: Task)
      requires Valid() && freshId !in tasks
      modifies this
      ensures Valid()
      ensures t == NewTask(body, freshId, now)
      ensures tasks == old(tasks)[freshId := t]
    {
      t := NewTask(body, freshId, now);
      tasks := tasks[freshId := t];
    }

    /** GET /tasks: the open tasks, newest first, at most `ListCap` of them. */
    method List() returns (r: seq<Task>)
      requires Valid()
      ensures IsListing(tasks, r)
    {
      var pending := tasks.Keys;
      var open: seq<Task> := [];
      while pending != {}
        invariant pending <= tasks.Keys
        invariant forall x :: x in open ==> x.id in tasks && tasks[x.id] == x && !x.completed && x.id !in pending
        invariant DistinctIds(open)
        invariant NewestFirst(open)
        invariant forall id :: id in tasks && id !in pending && !tasks[id].completed ==> tasks[id] in open
        decreases pending
      {
        var id :| id in pending;
        pending := pending - {id};
        var t := tasks[id];
        if !t.completed {
          assert forall i :: 0 <= i < |open| ==> open[i].id != t.id by {
            assert forall i :: 0 <= i < |open| ==> open[i] in open;
          }
          open := InsertNewest(open, t);
        }
      }
      TruncatedIsListing(tasks, open);
      r := if |open| <= ListCap then open else open[..ListCap];
    }

    /** PUT /tasks/{id}: an update with no non-null field is refused before
        the id is looked up; an unknown id is refused next; otherwise exactly
        the supplied fields are overwritten and the stored result returned. */
    method Update(id: string, u: TaskUpdate) returns (r: Result<Task>)
      requires Valid()
      modifies this
      ensures Valid()
      ensures u == NoChanges ==> r == Err(NoUpdateData) && tasks == old(tasks)
      ensures u != NoChanges && id !in old(tasks) ==> r == Err(TaskNotFound) && tasks == old(tasks)
      ensures u != NoChanges && id in old(tasks) ==>
        && tasks == old(tasks)[id := ApplySet(old(tasks)[id], UpdateData(u))]
        && r == Ok(tasks[id])
    {
      var data := UpdateData(u);
      if data == map[] {
        return Err(NoUpdateData);
      }
      var matched := if id in tasks then 1 else 0;
      if matched == 0 {
        return Err(TaskNotFound);
      }
      UpdateKeepsIdentity(tasks[id], u);
      tasks := tasks[id := ApplySet(tasks[id], data)];
      r := Ok(tasks[id]);
    }

    /** DELETE /tasks/{id}: removes the task, or reports 404 if there is none. */
    method Delete(id: string) returns (r: Result<string>)
      requires Valid()
      modifies this
      ensures Valid()
      ensures id !in old(tasks) ==> r == Err(TaskNotFound) && tasks == old(tasks)
      ensures id in old(tasks) ==> r == Ok(DeletedMessage) && tasks == old(tasks) - {id}
    {
      var deleted := if id in tasks then 1 else 0;
      tasks := tasks - {id};
      if deleted == 0 {
        return Err(TaskNotFound);
      }
      r := Ok(DeletedMessage);
    }

    /** POST /tasks/{id}/complete: sets `completed` whatever its value was,
        or reports 404 if there is no such task. */
    method Complete(id: string) returns (r: Result<string>)
      requires Valid()
      modifies this
      ensures Valid()
      ensures id !in old(tasks) ==> r == Err(TaskNotFound) && tasks == old(tasks)
      ensures id in old(tasks) ==>
        && r == Ok(CompletedMessage)
        && tasks == old(tasks)[id := old(tasks)[id].(completed := true)]
    {
      var matched := if id in tasks then 1 else 0;
      if matched == 0 {
        return Err(TaskNotFound);
      }
      var done := map[Completed := Flag(true)];
      ApplySetFieldwise(tasks[id], done);
      FieldsDetermineTask(ApplySet(tasks[id], done), tasks[id].(completed := true));
      tasks := tasks[id := ApplySet(tasks[id], done)];
      r := Ok(CompletedMessage);
    }
  }

  /** Completing twice succeeds both times and leaves the state of one call. */
  method CompleteTwice(table: TaskTable, id: string) returns (first: Result<string>, second: Result<string>)
    requires table.Valid()
    modifies table
    ensures table.Valid()
    ensures first == second
    ensures id in old(table.tasks) ==> first == Ok(CompletedMessage)
    ensures table.tasks == if id in old(table.tasks)
      then old(table.tasks)[id := old(table.tasks)[id].(completed := true)]
      else old(table.tasks)
  {
    first := table.Complete(id);
    second := table.Complete(id);
  }

  /** Deleting twice: the first call removes the task, the second finds
      nothing and reports 404. */
  method DeleteTwice(table: TaskTable, id: string) returns (first: Result<string>, second: Result<string>)
    requires table.Valid()
    modifies table
    ensures table.Valid()
    ensures second == Err(TaskNotFound)
    ensures first == if id in old(table.tasks) then Ok(DeletedMessage) else Err(TaskNotFound)
    ensures table.tasks == old(table.tasks) - {id}
  {
    first := table.Delete(id);
    second := table.Delete(id);
  }

  /** Create a task with text only, complete it, list, delete it twice, and
      try the three id-taking handlers on an id that was never issued. */
  method Lifecycle(freshId: string, otherId: string, now: int)
    returns (created: Task, completion: Result<string>, listed: seq<Task>, firstDelete: Result<string>, secondDelete: Result<string>,
             unknownUpdate: Result<Task>, unknownComplete: Result<string>, unknownDelete: Result<string>)
    requires freshId != otherId
    ensures created.priority == "LOW" && created.id == freshId && !created.completed
    ensures completion == Ok(CompletedMessage)
    ensures forall i :: 0 <= i < |listed| ==> listed[i].id != freshId
    ensures firstDelete == Ok(DeletedMessage) && secondDelete == Err(TaskNotFound)
    ensures unknownUpdate == Err(TaskNotFound) && unknownComplete == Err(TaskNotFound) && unknownDelete == Err(TaskNotFound)
  {
    var table := new TaskTable();
    created := table.Create(TaskCreate("Buy milk", None, None, None, None, None), freshId, now);
    completion := table.Complete(freshId);
    listed := table.List();
    CompletedNeverListed(table.tasks, listed, freshId);
    firstDelete := table.Delete(freshId);
    secondDelete := table.Delete(freshId);
    unknownUpdate := table.Update(otherId, NoChanges.(text := Some("x")));
    unknownComplete := table.Complete(otherId);
    unknownDelete := table.Delete(otherId);
  }
}
