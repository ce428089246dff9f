/** The coordinator's mutable task records and the dependency graph that a list of them describes. */
module Tasks {
  import opened Graphs

  datatype Status = Pending | Running | Done | Failed | Cancelled

  class Task {
    const id: Id
    const skill: string
    var dependsOn: seq<Id>
    var status: Status

    constructor (id: Id, skill: string, dependsOn: seq<Id>)
      ensures this.id == id && this.skill == skill && this.dependsOn == dependsOn && status == Pending
    {
      this.id, this.skill, this.dependsOn, this.status := id, skill, dependsOn, Pending;
    }
  }

  ghost predicate UniqueIds(tasks: seq<Task>) {
    forall i, j :: 0 <= i < j < |tasks| ==> tasks[i].id != tasks[j].id
  }

  ghost function Ids(tasks: seq<Task>): (ids: seq<Id>)
    ensures |ids| == |tasks|
    ensures forall i :: 0 <= i < |tasks| ==> ids[i] == tasks[i].id
  {
    seq(|tasks|, i requires 0 <= i < |tasks| => tasks[i].id)
  }

  function IdSet(tasks: seq<Task>): set<Id> {
    set t | t in tasks :: t.id
  }

  ghost function GraphOf(tasks: seq<Task>): Graph
    requires UniqueIds(tasks)
    reads tasks`dependsOn
  {
    map i | 0 <= i < |tasks| :: tasks[i].id := tasks[i].dependsOn
  }

  lemma GraphAt(tasks: seq<Task>)
    requires UniqueIds(tasks)
    ensures GraphOf(tasks).Keys == IdSet(tasks)
    ensures forall t :: t in tasks ==> t.id in GraphOf(tasks) && GraphOf(tasks)[t.id] == t.dependsOn
  {
  }

  ghost function StatusOf(tasks: seq<Task>): map<Id, Status>
    requires UniqueIds(tasks)
    reads tasks`status
  {
    map i | 0 <= i < |tasks| :: tasks[i].id := tasks[i].status
  }

  lemma StatusAt(tasks: seq<Task>)
    requires UniqueIds(tasks)
    ensures StatusOf(tasks).Keys == IdSet(tasks)
    ensures forall t :: t in tasks ==> t.id in StatusOf(tasks) && StatusOf(tasks)[t.id] == t.status
  {
  }

  lemma StatusIs(tasks: seq<Task>, m: map<Id, Status>)
    requires UniqueIds(tasks) && m.Keys == IdSet(tasks)
    requires forall t :: t in tasks ==> t.id in m && m[t.id] == t.status
    ensures StatusOf(tasks) == m
  {
    hide StatusOf;
    StatusAt(tasks);
    forall x | x in m ensures StatusOf(tasks)[x] == m[x] {
      var t :| t in tasks && t.id == x;
    }
  }

  lemma IdsAreKeys(tasks: seq<Task>)
    requires UniqueIds(tasks)
    ensures forall x :: x in GraphOf(tasks) <==> x in Ids(tasks)
  {
    forall x | x in GraphOf(tasks) ensures x in Ids(tasks) {
      var i :| 0 <= i < |tasks| && tasks[i].id == x;
      assert Ids(tasks)[i] == x;
    }
  }

  method TaskIds(tasks: seq<Task>) returns (ids: seq<Id>)
    ensures ids == Ids(tasks)
  {
    ids := seq(|tasks|, i requires 0 <= i < |tasks| => tasks[i].id);
  }
}
