/**
 * The in-memory store of boards and tasks. A JavaScript `Map` iterates its
 * entries in the order their keys were first inserted; the store keeps that
 * order explicitly as `keyOrder` beside the key-to-task map.
 */
module DataStore {
  import opened Types

  predicate Distinct(s: seq<string>) {
    forall i, j :: 0 <= i < j < |s| ==> s[i] != s[j]
  }

  /** The ids of a task list, in list order. */
  function Ids(ts: seq<Task>): (r: seq<string>)
    ensures |r| == |ts|
    ensures forall i :: 0 <= i < |ts| ==> r[i] == ts[i].id
  {
    if ts == [] then [] else Ids(ts[..|ts| - 1]) + [ts[|ts| - 1].id]
  }

  /** Appending a new element keeps a sequence distinct. */
  lemma DistinctAppend(s: seq<string>, x: string)
    requires Distinct(s) && x !in s
    ensures Distinct(s + [x])
  {
  }

  /** The map left by setting each task of `ts` under its id, in order. */
  function ById(ts: seq<Task>): (m: map<string, Task>)
    ensures forall k :: k in m ==> m[k].id == k
  {
    if ts == [] then map[] else
      var last := ts[|ts| - 1];
      ById(ts[..|ts| - 1])[last.id := last]
  }

  /** The key order of that map: each id where it first appears. */
  function OrderOf(ts: seq<Task>): seq<string>
  {
    if ts == [] then [] else
      var prev := OrderOf(ts[..|ts| - 1]);
      var id := ts[|ts| - 1].id;
      if id in prev then prev else prev + [id]
  }

  /** The values of `m`, taken in the order `keys` gives. */
  function Values(keys: seq<string>, m: map<string, Task>): (r: seq<Task>)
    requires forall k :: k in keys ==> k in m
    ensures |r| == |keys|
    ensures forall i :: 0 <= i < |keys| ==> r[i] == m[keys[i]]
  {
    if keys == [] then [] else [m[keys[0]]] + Values(keys[1..], m)
  }

  /** `keys` with `id` taken out, the rest kept in order. */
  function WithoutKey(keys: seq<string>, id: string): (r: seq<string>)
    ensures forall k :: k in r <==> k in keys && k != id
    ensures id !in keys ==> r == keys
  {
    if keys == [] then []
    else if keys[0] == id then WithoutKey(keys[1..], id)
    else
      assert forall k :: k in keys[1..] ==> k in keys;
      [keys[0]] + WithoutKey(keys[1..], id)
  }

  /** Removing a key keeps a sequence distinct. */
  lemma {:induction false} WithoutKeyDistinct(keys: seq<string>, id: string)
    requires Distinct(keys)
    ensures Distinct(WithoutKey(keys, id))
  {
    if keys != [] {
      var rest := keys[1..];
      assert Distinct(rest);
      WithoutKeyDistinct(rest, id);
      if keys[0] != id {
        assert keys[0] !in rest;
      }
    }
  }

  /** ById holds exactly the ids of the list. */
  lemma {:induction false} ByIdKeys(ts: seq<Task>)
    ensures forall k :: k in ById(ts) <==> k in Ids(ts)
  {
    if ts != [] {
      var init := ts[..|ts| - 1];
      ByIdKeys(init);
    }
  }

  /** Under each id the map keeps the last task of the list with that id. */
  lemma {:induction false} ByIdLastWins(ts: seq<Task>, i: nat)
    requires i < |ts|
    requires forall j :: i < j < |ts| ==> ts[j].id != ts[i].id
    ensures ts[i].id in ById(ts) && ById(ts)[ts[i].id] == ts[i]
  {
    if i < |ts| - 1 {
      var init := ts[..|ts| - 1];
      ByIdLastWins(init, i);
    }
  }

  /** The key order lists every id of the list once, and nothing else. */
  lemma {:induction false} OrderOfKeys(ts: seq<Task>)
    ensures Distinct(OrderOf(ts))
    ensures forall k :: k in OrderOf(ts) <==> k in Ids(ts)
  {
    if ts != [] {
      var init := ts[..|ts| - 1];
      OrderOfKeys(init);
      var id := ts[|ts| - 1].id;
      if id !in OrderOf(init) {
        DistinctAppend(OrderOf(init), id);
      }
    }
  }

  /** With distinct ids the key order is the list's own order. */
  lemma {:induction false} OrderOfDistinct(ts: seq<Task>)
    requires Distinct(Ids(ts))
    ensures OrderOf(ts) == Ids(ts)
  {
    if ts != [] {
      var init := ts[..|ts| - 1];
      assert Distinct(Ids(init));
      OrderOfDistinct(init);
      assert ts[|ts| - 1].id !in Ids(init);
    }
  }

  /** Setting a list of tasks with distinct ids and reading the values back
      gives the same list. */
  lemma SetThenGetAll(ts: seq<Task>)
    requires Distinct(Ids(ts))
    ensures forall k :: k in OrderOf(ts) ==> k in ById(ts)
    ensures Values(OrderOf(ts), ById(ts)) == ts
  {
    ByIdKeys(ts);
    OrderOfDistinct(ts);
    var r := Values(OrderOf(ts), ById(ts));
    forall i | 0 <= i < |ts| ensures r[i] == ts[i] {
      assert forall j :: i < j < |ts| ==> Ids(ts)[j] != Ids(ts)[i];
      ByIdLastWins(ts, i);
      assert OrderOf(ts)[i] == ts[i].id;
    }
  }

  /** A distinct sequence has as many elements as its set of elements. */
  lemma {:induction false} DistinctCard(s: seq<string>)
    requires Distinct(s)
    ensures |set k | k in s| == |s|
  {
    if s != [] {
      var rest := s[1..];
      DistinctCard(rest);
      assert (set k | k in s) == (set k | k in rest) + {s[0]};
      assert s[0] !in rest;
    }
  }

  class TaskStore {
    var tasksById: map<string, Task>
    var keyOrder: seq<string>
    var boards: seq<Board>

    /** The key order lists each key of the map exactly once, and each
        task is stored under its own id. */
    ghost predicate Valid()
      reads this
    {
      && Distinct(keyOrder)
      && (forall k :: k in keyOrder <==> k in tasksById)
      && (forall k :: k in tasksById ==> tasksById[k].id == k)
    }

    /** The tasks in the order the map iterates them. */
    function AllTasks(): (ts: seq<Task>)
      reads this
      requires Valid()
      ensures |ts| == |tasksById|
    {
      DistinctCard(keyOrder);
      assert (set k | k in keyOrder) == tasksById.Keys;
      Values(keyOrder, tasksById)
    }

    constructor ()
      ensures Valid()
      ensures tasksById == map[] && keyOrder == [] && boards == []
    {
      tasksById := map[];
      keyOrder := [];
      boards := [];
    }

    method SetBoards(bs: seq<Board>)
      modifies this
      ensures boards == bs
      ensures tasksById == old(tasksById) && keyOrder == old(keyOrder)
    {
      boards := bs;
    }

    method GetBoards() returns (bs: seq<Board>)
      ensures bs == boards
    {
      bs := boards;
    }

    /** Clears the map and sets every task under its id, in list order. */
    method SetTasks(ts: seq<Task>)
      modifies this
      ensures Valid()
      ensures tasksById == ById(ts) && keyOrder == OrderOf(ts)
      ensures boards == old(boards)
    {
      tasksById := map[];
      keyOrder := [];
      for i := 0 to |ts|
        invariant tasksById == ById(ts[..i])
        invariant keyOrder == OrderOf(ts[..i])
        invariant boards == old(boards)
      {
        assert ts[..i + 1][..i] == ts[..i];
        var t := ts[i];
        tasksById := tasksById[t.id := t];
        if t.id !in keyOrder {
          keyOrder := keyOrder + [t.id];
        }
      }
      assert ts[..|ts|] == ts;
      ByIdKeys(ts);
      OrderOfKeys(ts);
    }

    /** Sets one task under its id: an existing id keeps its place in the
        order, a new one goes last. */
    method UpsertTask(t: Task)
      requires Valid()
      modifies this
      ensures Valid()
      ensures tasksById == old(tasksById)[t.id := t]
      ensures keyOrder == if t.id in old(keyOrder) then old(keyOrder) else old(keyOrder) + [t.id]
      ensures boards == old(boards)
    {
      tasksById := tasksById[t.id := t];
      if t.id !in keyOrder {
        keyOrder := keyOrder + [t.id];
      }
    }

    /** Deletes the entry under `id`, if any. */
    method RemoveTask(id: string)
      requires Valid()
      modifies this
      ensures Valid()
      ensures tasksById == old(tasksById) - {id}
      ensures keyOrder == WithoutKey(old(keyOrder), id)
      ensures id !in old(tasksById) ==> tasksById == old(tasksById) && keyOrder == old(keyOrder)
      ensures boards == old(boards)
    {
      tasksById := tasksById - {id};
      WithoutKeyDistinct(keyOrder, id);
      keyOrder := WithoutKey(keyOrder, id);
    }

    /** The tasks in the map's iteration order. */
    method GetAllTasks() returns (ts: seq<Task>)
      requires Valid()
      ensures ts == AllTasks()
    {
      ts := [];
      for i := 0 to |keyOrder|
        invariant |ts| == i
        invariant forall j :: 0 <= j < i ==> ts[j] == tasksById[keyOrder[j]]
      {
        ts := ts + [tasksById[keyOrder[i]]];
      }
    }
  }

  /** Upserting an existing id replaces that task where it stood. */
  lemma UpsertExisting(keys: seq<string>, m: map<string, Task>, t: Task, p: nat)
    requires forall k :: k in keys ==> k in m
    requires Distinct(keys) && p < |keys| && keys[p] == t.id
    ensures Values(keys, m[t.id := t]) == Values(keys, m)[p := t]
  {
    var r := Values(keys, m[t.id := t]);
    var s := Values(keys, m)[p := t];
    forall i | 0 <= i < |keys| ensures r[i] == s[i] {
    }
  }

  /** Upserting a new id appends its task. */
  lemma UpsertNew(keys: seq<string>, m: map<string, Task>, t: Task)
    requires forall k :: k in keys ==> k in m
    requires t.id !in keys
    ensures Values(keys + [t.id], m[t.id := t]) == Values(keys, m) + [t]
  {
    var r := Values(keys + [t.id], m[t.id := t]);
    var s := Values(keys, m) + [t];
    forall i | 0 <= i < |keys| + 1 ensures r[i] == s[i] {
      if i < |keys| {
        assert (keys + [t.id])[i] == keys[i];
      }
    }
  }

  /** The tasks of `ts` whose id is not `id`, in order. */
  function DropId(ts: seq<Task>, id: string): (r: seq<Task>)
    ensures forall t :: t in r <==> t in ts && t.id != id
  {
    if ts == [] then []
    else if ts[0].id == id then DropId(ts[1..], id)
    else
      assert forall t :: t in ts[1..] ==> t in ts;
      [ts[0]] + DropId(ts[1..], id)
  }

  /** Removing an id from a map whose entries carry their own key drops
      exactly the task with that id and keeps the others in order. */
  lemma {:induction false} RemoveValues(keys: seq<string>, m: map<string, Task>, id: string)
    requires forall k :: k in keys ==> k in m && m[k].id == k
    ensures forall k :: k in WithoutKey(keys, id) ==> k in m - {id}
    ensures Values(WithoutKey(keys, id), m - {id}) == DropId(Values(keys, m), id)
  {
    if keys != [] {
      RemoveValues(keys[1..], m, id);
      assert Values(keys, m)[1..] == Values(keys[1..], m);
    }
  }
}
