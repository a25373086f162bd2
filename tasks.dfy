/**
 * The task list: records with an optional id (legacy records lack one),
 * id backfill on load, id assignment on insert, toggling and deletion.
 */
module Tasks {
  import opened Wrappers
  import opened Dates

  /**
   * A task record. `deadline` is the day its `DD.MM.YYYY` text names, or
   * `None` when that text does not parse; a missing `completed` reads as false.
   */
  datatype Task = Task(id: Option<int>, description: string, deadline: Option<Day>, completed: bool)

  /** `t.get('id', 0)` */
  function IdOrZero(t: Task): int {
    t.id.GetOr(0)
  }

  /** The list after load: a task without an id gets its one-based position. */
  function Backfilled(ts: seq<Task>): (r: seq<Task>)
    ensures |r| == |ts|
    ensures forall i :: 0 <= i < |ts| ==>
      r[i].id.Some? && (ts[i].id.Some? ==> r[i] == ts[i]) && (ts[i].id.None? ==> r[i] == ts[i].(id := Some(i + 1)))
  {
    seq(|ts|, i requires 0 <= i < |ts| => if ts[i].id.Some? then ts[i] else ts[i].(id := Some(i + 1)))
  }

  /** The loop of `load_data` that gives each id-less task its position as id. */
  method BackfillIds(ts: seq<Task>) returns (r: seq<Task>)
    ensures r == Backfilled(ts)
    ensures forall i :: 0 <= i < |r| ==> r[i].id.Some?
  {
    r := ts;
    for i := 0 to |ts|
      invariant |r| == |ts|
      invariant forall j :: 0 <= j < i ==> r[j] == Backfilled(ts)[j]
      invariant forall j :: i <= j < |ts| ==> r[j] == ts[j]
    {
      if r[i].id.None? {
        r := r[i := r[i].(id := Some(i + 1))];
      }
    }
  }

  /** Backfill keeps every record's text, deadline and state, and every id already there. */
  lemma BackfillKeepsRecords(ts: seq<Task>, i: nat)
    requires i < |ts|
    ensures Backfilled(ts)[i].description == ts[i].description
    ensures Backfilled(ts)[i].deadline == ts[i].deadline
    ensures Backfilled(ts)[i].completed == ts[i].completed
    ensures ts[i].id.Some? ==> Backfilled(ts)[i].id == ts[i].id
  {
  }

  /**
   * Backfilled ids are positions, so they clash with a stored id equal to
   * a later position: a first record without an id next to one stored with
   * id 1 leaves two tasks with id 1.
   */
  lemma BackfillCanDuplicate(a: Task, b: Task)
    requires a.id.None? && b.id == Some(1)
    ensures Backfilled([a, b])[0].id == Backfilled([a, b])[1].id == Some(1)
  {
  }

  /** The largest `IdOrZero` in a non-empty list. */
  function MaxId(ts: seq<Task>): (m: int)
    requires ts != []
    ensures forall t :: t in ts ==> IdOrZero(t) <= m
    ensures exists t :: t in ts && IdOrZero(t) == m
  {
    if |ts| == 1 then IdOrZero(ts[0])
    else
      var rest := MaxId(ts[1..]);
      assert forall t :: t in ts ==> t == ts[0] || t in ts[1..];
      if IdOrZero(ts[0]) >= rest then IdOrZero(ts[0]) else rest
  }

  /** The id `add_task` gives: one past the largest, 1 for an empty list. */
  function NextId(ts: seq<Task>): (n: int)
    ensures forall t :: t in ts ==> IdOrZero(t) < n
    ensures forall t :: t in ts ==> t.id != Some(n)
    ensures ts == [] ==> n == 1
    ensures ts != [] ==> exists t :: t in ts && IdOrZero(t) == n - 1
  {
    if ts == [] then 1 else MaxId(ts) + 1
  }

  /** The list after `add_task`: a new open task with a fresh id at the end. */
  function Added(ts: seq<Task>, description: string, deadline: Day): (r: seq<Task>)
    ensures |r| == |ts| + 1 && r[..|ts|] == ts
    ensures r[|ts|] == Task(Some(NextId(ts)), description, Some(deadline), false)
  {
    ts + [Task(Some(NextId(ts)), description, Some(deadline), false)]
  }

  /** The list after `toggle_task`: the first task with that id flips its state. */
  function Toggled(ts: seq<Task>, id: int): (r: seq<Task>)
    ensures |r| == |ts|
  {
    if ts == [] then []
    else if ts[0].id == Some(id) then [ts[0].(completed := !ts[0].completed)] + ts[1..]
    else [ts[0]] + Toggled(ts[1..], id)
  }

  /** Toggling flips the first task with the id and nothing else. */
  lemma {:induction false} ToggledAt(ts: seq<Task>, id: int, i: nat)
    requires i < |ts| && ts[i].id == Some(id)
    requires forall j :: 0 <= j < i ==> ts[j].id != Some(id)
    ensures Toggled(ts, id) == ts[i := ts[i].(completed := !ts[i].completed)]
  {
    if i > 0 {
      ToggledAt(ts[1..], id, i - 1);
    }
  }

  /** Toggling an id no task has changes nothing. */
  lemma {:induction false} ToggledAbsent(ts: seq<Task>, id: int)
    requires forall j :: 0 <= j < |ts| ==> ts[j].id != Some(id)
    ensures Toggled(ts, id) == ts
  {
    if ts != [] {
      ToggledAbsent(ts[1..], id);
    }
  }

  /** Toggling twice restores the list. */
  lemma {:induction false} ToggleTwice(ts: seq<Task>, id: int)
    ensures Toggled(Toggled(ts, id), id) == ts
  {
    if ts != [] && ts[0].id != Some(id) {
      ToggleTwice(ts[1..], id);
    }
  }

  /** The loop of `toggle_task`: find the first task with the id, flip it, stop. */
  method ToggleFirst(ts: seq<Task>, id: int) returns (r: seq<Task>)
    ensures r == Toggled(ts, id)
  {
    r := ts;
    var i := 0;
    while i < |ts|
      invariant 0 <= i <= |ts|
      invariant forall j :: 0 <= j < i ==> ts[j].id != Some(id)
    {
      if ts[i].id == Some(id) {
        r := ts[i := ts[i].(completed := !ts[i].completed)];
        ToggledAt(ts, id, i);
        return;
      }
      i := i + 1;
    }
    ToggledAbsent(ts, id);
  }

  /** The list after `delete_task`: every task with that id goes, the rest keep their order. */
  function Deleted(ts: seq<Task>, id: int): (r: seq<Task>)
    ensures |r| <= |ts|
  {
    if ts == [] then []
    else (if ts[0].id == Some(id) then [] else [ts[0]]) + Deleted(ts[1..], id)
  }

  /** A task survives deletion exactly when it does not carry the id. */
  lemma {:induction false} DeletedMembers(ts: seq<Task>, id: int, t: Task)
    ensures t in Deleted(ts, id) <==> t in ts && t.id != Some(id)
  {
    if ts != [] {
      DeletedMembers(ts[1..], id, t);
      assert t in ts <==> t == ts[0] || t in ts[1..];
    }
  }

  /** Deleting an id no task has changes nothing. */
  lemma {:induction false} DeletedAbsent(ts: seq<Task>, id: int)
    requires forall t :: t in ts ==> t.id != Some(id)
    ensures Deleted(ts, id) == ts
  {
    if ts != [] {
      assert forall t :: t in ts[1..] ==> t in ts;
      DeletedAbsent(ts[1..], id);
    }
  }

  /** Deleting the task just added restores the list. */
  lemma {:induction false} DeleteAfterAdd(ts: seq<Task>, description: string, deadline: Day)
    ensures Deleted(Added(ts, description, deadline), NextId(ts)) == ts
  {
    DeletedAppend(ts, [Task(Some(NextId(ts)), description, Some(deadline), false)], NextId(ts));
    DeletedAbsent(ts, NextId(ts));
  }

  lemma {:induction false} DeletedAppend(a: seq<Task>, b: seq<Task>, id: int)
    ensures Deleted(a + b, id) == Deleted(a, id) + Deleted(b, id)
  {
    if a != [] {
      assert (a + b)[1..] == a[1..] + b;
      DeletedAppend(a[1..], b, id);
    } else {
      assert a + b == b;
    }
  }
}
