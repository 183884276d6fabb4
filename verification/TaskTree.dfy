/**
 * The work plan: tasks within feats within epics, each with a status. Updating a task propagates its status upwards,
 * to the epic only when the feat's status changed; the tree is nevertheless consistent after every update. Drawing
 * the next todo task until there is none walks the plan in order.
 */
module TaskTree {
  import opened Prelude

  type Id = nat

  datatype Status = Todo | InProgress | Done | Failed
  datatype EpicStatus = Planned | Started | Finished

  datatype Task = Task(feat: Id, number: nat, status: Status)
  datatype Feat = Feat(epic: Id, number: nat, status: Status)
  datatype Epic = Epic(version: Id, number: nat, status: EpicStatus)

  /** What the rows of the three tables say. */
  datatype Plan = Plan(tasks: map<Id, Task>, feats: map<Id, Feat>, epics: map<Id, Epic>)

  // ---------------------------------------------------------------- aggregates

  function FeatAggregate(statuses: set<Status>): (r: Status)
    ensures r == Done <==> Done in statuses && forall s :: s in statuses ==> s == Done
    ensures r == Failed <==> Failed in statuses && InProgress !in statuses
    ensures r == InProgress <==> InProgress in statuses
  {
    if statuses == {Done} then Done
    else if InProgress in statuses then InProgress
    else if Failed in statuses then Failed
    else Todo
  }

  function EpicAggregate(statuses: set<Status>): (r: EpicStatus)
    ensures r == Finished <==> Done in statuses && forall s :: s in statuses ==> s == Done
    ensures r == Planned ==> InProgress !in statuses && Failed !in statuses
    ensures r == Started ==> InProgress in statuses || Failed in statuses
  {
    if statuses == {Done} then Finished
    else if InProgress in statuses || Failed in statuses then Started
    else Planned
  }

  function TaskStatuses(tasks: map<Id, Task>, feat: Id): set<Status> {
    set t | t in tasks && tasks[t].feat == feat :: tasks[t].status
  }

  function FeatStatuses(feats: map<Id, Feat>, epic: Id): set<Status> {
    set f | f in feats && feats[f].epic == epic :: feats[f].status
  }

  predicate FeatAgrees(p: Plan, f: Id)
    requires f in p.feats
  {
    var statuses := TaskStatuses(p.tasks, f);
    statuses != {} ==> p.feats[f].status == FeatAggregate(statuses)
  }

  predicate EpicAgrees(p: Plan, e: Id)
    requires e in p.epics
  {
    var statuses := FeatStatuses(p.feats, e);
    statuses != {} ==> p.epics[e].status == EpicAggregate(statuses)
  }

  /** Every feat that has tasks, and every epic that has feats, carries the aggregate of its children. */
  predicate Consistent(p: Plan) {
    && (forall f :: f in p.feats ==> FeatAgrees(p, f))
    && (forall e :: e in p.epics ==> EpicAgrees(p, e))
  }

  /** Foreign keys, and numbers unique within their parent. */
  predicate Keyed(p: Plan) {
    && (forall t :: t in p.tasks ==> p.tasks[t].feat in p.feats)
    && (forall f :: f in p.feats ==> p.feats[f].epic in p.epics)
    && (forall t, u ::
          t in p.tasks && u in p.tasks && p.tasks[t].(status := Todo) == p.tasks[u].(status := Todo) ==> t == u)
    && (forall f, g ::
          f in p.feats && g in p.feats && p.feats[f].(status := Todo) == p.feats[g].(status := Todo) ==> f == g)
    && (forall d, e ::
          d in p.epics && e in p.epics && p.epics[d].(status := Planned) == p.epics[e].(status := Planned) ==> d == e)
  }

  /** Only statuses differ. */
  predicate SameShape(p: Plan, q: Plan) {
    && p.tasks.Keys == q.tasks.Keys && p.feats.Keys == q.feats.Keys && p.epics.Keys == q.epics.Keys
    && (forall t :: t in p.tasks ==> q.tasks[t].(status := p.tasks[t].status) == p.tasks[t])
    && (forall f :: f in p.feats ==> q.feats[f].(status := p.feats[f].status) == p.feats[f])
    && (forall e :: e in p.epics ==> q.epics[e].(status := p.epics[e].status) == p.epics[e])
  }

  // ---------------------------------------------------------------- plan order

  predicate InVersion(p: Plan, t: Id, version: Id)
    requires Keyed(p) && t in p.tasks
  {
    p.epics[p.feats[p.tasks[t].feat].epic].version == version
  }

  /** Epic number, then feat number, then task number. */
  predicate Before(p: Plan, t: Id, u: Id)
    requires Keyed(p) && t in p.tasks && u in p.tasks
  {
    var ft, fu := p.feats[p.tasks[t].feat], p.feats[p.tasks[u].feat];
    var et, eu := p.epics[ft.epic], p.epics[fu.epic];
    || et.number < eu.number
    || (et.number == eu.number && ft.number < fu.number)
    || (et.number == eu.number && ft.number == fu.number && p.tasks[t].number < p.tasks[u].number)
  }

  /** Within a version the plan order is total, so the next task is unique. */
  lemma OrderIsTotal(p: Plan, version: Id, t: Id, u: Id)
    requires Keyed(p) && t in p.tasks && u in p.tasks && InVersion(p, t, version) && InVersion(p, u, version)
    ensures t == u || Before(p, t, u) || Before(p, u, t)
  {
    var f, g := p.tasks[t].feat, p.tasks[u].feat;
    var d, e := p.feats[f].epic, p.feats[g].epic;
    if p.epics[d].number == p.epics[e].number {
      assert d == e;
      if p.feats[f].number == p.feats[g].number {
        assert f == g;
      }
    }
  }

  function TodoOf(p: Plan, version: Id): set<Id>
    requires Keyed(p)
  {
    set t | t in p.tasks && p.tasks[t].status == Todo && InVersion(p, t, version)
  }

  // ---------------------------------------------------------------- propagation

  /** What a patch says about the status: nothing, null, or a new one. */
  datatype Patch = Unset | Null | New(status: Status)

  /** The epic carries the aggregate of its feats, if it has any. */
  function EpicRecomputed(p: Plan, e: Id): Plan
    requires e in p.epics
  {
    var statuses := FeatStatuses(p.feats, e);
    if statuses == {} then p else p.(epics := p.epics[e := p.epics[e].(status := EpicAggregate(statuses))])
  }

  /** The feat carries the aggregate of its tasks, if it has any; the epic follows only when that changed the feat. */
  function FeatRecomputed(p: Plan, f: Id): Plan
    requires f in p.feats && p.feats[f].epic in p.epics
  {
    if FeatAgrees(p, f) then p
    else
      var feat := p.feats[f].(status := FeatAggregate(TaskStatuses(p.tasks, f)));
      EpicRecomputed(p.(feats := p.feats[f := feat]), feat.epic)
  }

  function Patched(p: Plan, t: Id, patch: Patch): Plan
    requires t in p.tasks
  {
    if patch.New? then p.(tasks := p.tasks[t := p.tasks[t].(status := patch.status)]) else p
  }

  function Updated(p: Plan, t: Id, patch: Patch): Plan
    requires Keyed(p)
  {
    if t !in p.tasks then p
    else
      var q := Patched(p, t, patch);
      if patch == Unset then q else FeatRecomputed(q, q.tasks[t].feat)
  }

  // ---------------------------------------------------------------- consistency

  /** A task's status is seen by its own feat only. */
  lemma OtherFeats(before: map<Id, Task>, after: map<Id, Task>, task: Id, status: Status)
    requires task in before && after == before[task := before[task].(status := status)]
    ensures forall f :: f != before[task].feat ==> TaskStatuses(after, f) == TaskStatuses(before, f)
  {
    forall f | f != before[task].feat ensures TaskStatuses(after, f) == TaskStatuses(before, f) {
      forall s ensures s in TaskStatuses(after, f) <==> s in TaskStatuses(before, f) {
        if t :| t in before && before[t].feat == f && before[t].status == s {
          assert after[t] == before[t];
        }
        if t :| t in after && after[t].feat == f && after[t].status == s {
          assert after[t] == before[t];
        }
      }
    }
  }

  /** A feat's status is seen by its own epic only. */
  lemma OtherEpics(before: map<Id, Feat>, after: map<Id, Feat>, feat: Id, status: Status)
    requires feat in before && after == before[feat := before[feat].(status := status)]
    ensures forall e :: e != before[feat].epic ==> FeatStatuses(after, e) == FeatStatuses(before, e)
  {
    forall e | e != before[feat].epic ensures FeatStatuses(after, e) == FeatStatuses(before, e) {
      forall s ensures s in FeatStatuses(after, e) <==> s in FeatStatuses(before, e) {
        if f :| f in before && before[f].epic == e && before[f].status == s {
          assert after[f] == before[f];
        }
        if f :| f in after && after[f].epic == e && after[f].status == s {
          assert after[f] == before[f];
        }
      }
    }
  }

  lemma EpicRecomputedAgrees(p: Plan, e: Id)
    requires e in p.epics && forall d :: d in p.epics && d != e ==> EpicAgrees(p, d)
    ensures forall d :: d in p.epics ==> d in EpicRecomputed(p, e).epics && EpicAgrees(EpicRecomputed(p, e), d)
  {
  }

  /** Recomputing a feat restores consistency, though its epic is left alone when the feat does not change. */
  lemma FeatRecomputedConsistent(p: Plan, f: Id)
    requires f in p.feats && p.feats[f].epic in p.epics
    requires forall g :: g in p.feats && g != f ==> FeatAgrees(p, g)
    requires forall e :: e in p.epics ==> EpicAgrees(p, e)
    ensures Consistent(FeatRecomputed(p, f))
  {
    if !FeatAgrees(p, f) {
      var status := FeatAggregate(TaskStatuses(p.tasks, f));
      var feat := p.feats[f].(status := status);
      var q := p.(feats := p.feats[f := feat]);
      OtherEpics(p.feats, q.feats, f, status);
      EpicRecomputedAgrees(q, feat.epic);
      forall g | g in q.feats ensures FeatAgrees(EpicRecomputed(q, feat.epic), g) {
        assert g != f ==> FeatAgrees(p, g);
      }
    }
  }

  /** The status of one task changes, and no other feat sees it. */
  lemma PatchedAgrees(p: Plan, t: Id, patch: Patch)
    requires Keyed(p) && Consistent(p) && t in p.tasks
    ensures forall g :: g in p.feats && g != p.tasks[t].feat ==> FeatAgrees(Patched(p, t, patch), g)
    ensures forall e :: e in p.epics ==> EpicAgrees(Patched(p, t, patch), e)
  {
    if patch.New? {
      OtherFeats(p.tasks, Patched(p, t, patch).tasks, t, patch.status);
    }
    forall g | g in p.feats && g != p.tasks[t].feat ensures FeatAgrees(Patched(p, t, patch), g) {
      assert FeatAgrees(p, g);
    }
    forall e | e in p.epics ensures EpicAgrees(Patched(p, t, patch), e) {
      assert EpicAgrees(p, e);
    }
  }

  lemma SameShapeKeyed(p: Plan, q: Plan)
    requires Keyed(p) && SameShape(p, q)
    ensures Keyed(q)
  {
  }

  lemma FeatRecomputedShape(p: Plan, f: Id)
    requires f in p.feats && p.feats[f].epic in p.epics
    ensures SameShape(p, FeatRecomputed(p, f)) && FeatRecomputed(p, f).tasks == p.tasks
  {
  }

  lemma PatchedShape(p: Plan, t: Id, patch: Patch)
    requires Keyed(p) && t in p.tasks
    ensures SameShape(p, Patched(p, t, patch)) && Keyed(Patched(p, t, patch))
  {
    SameShapeKeyed(p, Patched(p, t, patch));
  }

  /** An update changes nothing but statuses. */
  lemma UpdatedShape(p: Plan, t: Id, patch: Patch)
    requires Keyed(p)
    ensures SameShape(p, Updated(p, t, patch))
  {
    if t in p.tasks {
      var q := Patched(p, t, patch);
      PatchedShape(p, t, patch);
      if patch != Unset {
        FeatRecomputedShape(q, q.tasks[t].feat);
        ShapeTransitive(p, q, FeatRecomputed(q, q.tasks[t].feat));
      }
    }
  }

  lemma UpdatedKeyed(p: Plan, t: Id, patch: Patch)
    requires Keyed(p)
    ensures Keyed(Updated(p, t, patch))
  {
    UpdatedShape(p, t, patch);
    SameShapeKeyed(p, Updated(p, t, patch));
  }

  lemma ShapeTransitive(p: Plan, q: Plan, r: Plan)
    requires SameShape(p, q) && SameShape(q, r)
    ensures SameShape(p, r)
  {
  }

  /** Every status update keeps the tree consistent. */
  lemma UpdatedConsistent(p: Plan, t: Id, patch: Patch)
    requires Keyed(p) && Consistent(p)
    ensures Consistent(Updated(p, t, patch))
  {
    if t in p.tasks && patch != Unset {
      var q := Patched(p, t, patch);
      PatchedAgrees(p, t, patch);
      FeatRecomputedConsistent(q, q.tasks[t].feat);
    }
  }

  /** Every run of status updates keeps it consistent. */
  function RunOf(p: Plan, steps: seq<(Id, Patch)>): (r: Plan)
    requires Keyed(p)
    ensures Keyed(r)
    decreases |steps|
  {
    if steps == [] then p
    else
      UpdatedKeyed(p, steps[0].0, steps[0].1);
      RunOf(Updated(p, steps[0].0, steps[0].1), steps[1..])
  }

  lemma {:induction false} RunConsistent(p: Plan, steps: seq<(Id, Patch)>)
    requires Keyed(p) && Consistent(p)
    ensures Consistent(RunOf(p, steps))
    decreases |steps|
  {
    if steps != [] {
      UpdatedKeyed(p, steps[0].0, steps[0].1);
      UpdatedConsistent(p, steps[0].0, steps[0].1);
      RunConsistent(Updated(p, steps[0].0, steps[0].1), steps[1..]);
    }
  }

  // ---------------------------------------------------------------- creating tasks

  /** What consistency says of a feat with tasks, task by task. */
  lemma FeatMeans(p: Plan, f: Id, t: Id)
    requires Consistent(p) && f in p.feats && t in p.tasks && p.tasks[t].feat == f
    ensures p.feats[f].status == Done <==>
      forall u :: u in p.tasks && p.tasks[u].feat == f ==> p.tasks[u].status == Done
    ensures p.feats[f].status == InProgress <==>
      exists u :: u in p.tasks && p.tasks[u].feat == f && p.tasks[u].status == InProgress
    ensures p.feats[f].status == Failed <==>
      && (exists u :: u in p.tasks && p.tasks[u].feat == f && p.tasks[u].status == Failed)
      && (forall u :: u in p.tasks && p.tasks[u].feat == f ==> p.tasks[u].status != InProgress)
  {
    var statuses := TaskStatuses(p.tasks, f);
    assert FeatAgrees(p, f) && p.tasks[t].status in statuses;
    assert forall u :: u in p.tasks && p.tasks[u].feat == f ==> p.tasks[u].status in statuses;
  }

  /** And of an epic with feats, feat by feat. */
  lemma EpicMeans(p: Plan, e: Id, f: Id)
    requires Consistent(p) && e in p.epics && f in p.feats && p.feats[f].epic == e
    ensures p.epics[e].status == Finished <==>
      forall g :: g in p.feats && p.feats[g].epic == e ==> p.feats[g].status == Done
    ensures p.epics[e].status == Started <==>
      exists g :: g in p.feats && p.feats[g].epic == e
        && (p.feats[g].status == InProgress || p.feats[g].status == Failed)
  {
    var statuses := FeatStatuses(p.feats, e);
    assert EpicAgrees(p, e) && p.feats[f].status in statuses;
    assert forall g :: g in p.feats && p.feats[g].epic == e ==> p.feats[g].status in statuses;
  }

  lemma CreatedKeyed(p: Plan, id: Id, task: Task)
    requires Keyed(p) && id !in p.tasks && task.feat in p.feats
    requires forall t :: t in p.tasks && p.tasks[t].feat == task.feat ==> p.tasks[t].number < task.number
    ensures Keyed(p.(tasks := p.tasks[id := task]))
  {
  }

  lemma CreatedStatuses(tasks: map<Id, Task>, id: Id, task: Task)
    requires id !in tasks
    ensures TaskStatuses(tasks[id := task], task.feat) == TaskStatuses(tasks, task.feat) + {task.status}
    ensures forall f :: f != task.feat ==> TaskStatuses(tasks[id := task], f) == TaskStatuses(tasks, f)
  {
    var after := tasks[id := task];
    forall f, s
      ensures s in TaskStatuses(after, f) <==> s in TaskStatuses(tasks, f) || (f == task.feat && s == task.status)
    {
      if t :| t in tasks && tasks[t].feat == f && tasks[t].status == s {
        assert after[t] == tasks[t];
      }
      if f == task.feat && s == task.status {
        assert after[id] == task;
      }
    }
  }

  /** A feat that has tasks keeps its aggregate when a task of this status joins them. */
  predicate Takes(feat: Status, status: Status) {
    match feat
    case Done => status == Done
    case InProgress => true
    case Failed => status != InProgress
    case Todo => status == Todo || status == Done
  }

  /**
   * Creating a task recomputes nothing. The tree stays consistent exactly when the feat, if it had tasks, has a status
   * that takes the new one, and if it had none, has the same status already.
   */
  lemma CreateConsistentIff(p: Plan, id: Id, f: Id, number: nat, status: Status)
    requires Consistent(p) && id !in p.tasks && f in p.feats
    ensures Consistent(p.(tasks := p.tasks[id := Task(f, number, status)])) <==>
      if TaskStatuses(p.tasks, f) == {} then p.feats[f].status == status else Takes(p.feats[f].status, status)
  {
    var q := p.(tasks := p.tasks[id := Task(f, number, status)]);
    CreatedStatuses(p.tasks, id, Task(f, number, status));
    var s := TaskStatuses(p.tasks, f);
    assert FeatAgrees(p, f);
    assert FeatAgrees(q, f) <==> p.feats[f].status == FeatAggregate(s + {status}) by {
      assert status in s + {status};
    }
    CreatedAggregate(s, status);
    forall g | g in p.feats && g != f ensures FeatAgrees(q, g) {
      assert FeatAgrees(p, g);
    }
    forall e | e in p.epics ensures EpicAgrees(q, e) {
      assert EpicAgrees(p, e);
    }
  }

  lemma CreatedAggregate(s: set<Status>, status: Status)
    ensures s == {} ==> FeatAggregate(s + {status}) == status
    ensures s != {} ==> (FeatAggregate(s + {status}) == FeatAggregate(s) <==> Takes(FeatAggregate(s), status))
  {
    var joined := s + {status};
    assert status in joined;
    if s == {} {
      assert joined == {status};
    } else if FeatAggregate(s) == Done && status == Done {
      assert joined == {Done};
    } else if FeatAggregate(s) == Todo {
      var x :| x in s && x != Done;
      assert x in joined;
    }
  }

  // ---------------------------------------------------------------- walking the plan

  predicate Precedes(p: Plan, t: Id, u: Id)
    requires Keyed(p)
  {
    t in p.tasks && u in p.tasks && Before(p, t, u)
  }

  /** `t` is the first todo task of the version. */
  predicate FirstTodo(p: Plan, version: Id, t: Id)
    requires Keyed(p)
  {
    t in TodoOf(p, version) && forall u :: u in TodoOf(p, version) && u != t ==> Before(p, t, u)
  }

  /** The visited tasks are done, and every other task is as it was. */
  predicate CompletedIn(p: Plan, q: Plan, visited: seq<Id>) {
    && p.tasks.Keys == q.tasks.Keys
    && forall t :: t in p.tasks ==> q.tasks[t].status == if t in visited then Done else p.tasks[t].status
  }

  /** The visited tasks are the todo tasks that are gone, in plan order, all before those that are left. */
  ghost predicate Walked(p: Plan, todo: set<Id>, visited: seq<Id>, left: set<Id>)
    requires Keyed(p)
  {
    InOrder(p, visited, left) && forall t :: t in todo <==> t in visited || t in left
  }

  lemma SameShapeReflexive(p: Plan)
    ensures SameShape(p, p)
  {
  }

  /** Statuses have no say in the order, nor in what belongs to a version. */
  lemma ShapeDecides(p: Plan, q: Plan, version: Id, t: Id, u: Id)
    requires Keyed(p) && Keyed(q) && SameShape(p, q) && t in p.tasks && u in p.tasks
    ensures InVersion(p, t, version) == InVersion(q, t, version)
    ensures Before(p, t, u) == Before(q, t, u)
  {
    var ft, fu := p.tasks[t].feat, p.tasks[u].feat;
    assert ft == q.tasks[t].feat && fu == q.tasks[u].feat;
    assert p.feats[ft].epic == q.feats[ft].epic && p.feats[fu].epic == q.feats[fu].epic;
  }

  lemma TodoAfter(q: Plan, r: Plan, version: Id, t: Id, u: Id)
    requires Keyed(q) && Keyed(r) && SameShape(q, r) && t in q.tasks && u in q.tasks
    requires r.tasks == q.tasks[t := q.tasks[t].(status := Done)]
    ensures u in TodoOf(r, version) <==> u in TodoOf(q, version) && u != t
  {
    ShapeDecides(q, r, version, u, u);
  }

  /** Completing a todo task takes it, and nothing else, out of what is left to do. */
  lemma TodoShrinks(q: Plan, r: Plan, version: Id, t: Id)
    requires Keyed(q) && Keyed(r) && SameShape(q, r) && t in q.tasks
    requires r.tasks == q.tasks[t := q.tasks[t].(status := Done)]
    ensures TodoOf(r, version) == TodoOf(q, version) - {t}
  {
    var before, after := TodoOf(q, version), TodoOf(r, version);
    assert before <= q.tasks.Keys && after <= q.tasks.Keys;
    forall u | u in q.tasks.Keys ensures u in after <==> u in before && u != t {
      TodoAfter(q, r, version, t, u);
    }
  }

  lemma RecomputedTasks(p: Plan, feat: Id)
    requires feat in p.feats && p.feats[feat].epic in p.epics
    ensures FeatRecomputed(p, feat).tasks == p.tasks
  {
  }

  lemma UpdatedTasks(q: Plan, t: Id, patch: Patch)
    requires Keyed(q) && t in q.tasks
    ensures Updated(q, t, patch).tasks == Patched(q, t, patch).tasks
  {
    RecomputedTasks(Patched(q, t, patch), q.tasks[t].feat);
  }

  lemma StepCompleted(p: Plan, q: Plan, r: Plan, visited: seq<Id>, t: Id)
    requires CompletedIn(p, q, visited) && t in q.tasks && r.tasks == q.tasks[t := q.tasks[t].(status := Done)]
    ensures CompletedIn(p, r, visited + [t])
  {
  }

  /** The visited tasks are in plan order, and all before those that are left. */
  predicate InOrder(p: Plan, visited: seq<Id>, left: set<Id>)
    requires Keyed(p)
  {
    && (forall i, j :: 0 <= i < j < |visited| ==> Precedes(p, visited[i], visited[j]))
    && (forall i, u :: 0 <= i < |visited| && u in left ==> Precedes(p, visited[i], u))
  }

  /** Taking the first of what is left keeps the order. */
  lemma StepInOrder(p: Plan, visited: seq<Id>, left: set<Id>, t: Id)
    requires Keyed(p) && InOrder(p, visited, left) && t in left
    requires forall u :: u in left && u != t ==> Precedes(p, t, u)
    ensures InOrder(p, visited + [t], left - {t})
  {
  }

  /** The first todo task of a later state is the first of what is left. */
  lemma FirstLeft(p: Plan, q: Plan, version: Id, t: Id)
    requires Keyed(p) && Keyed(q) && SameShape(p, q) && FirstTodo(q, version, t)
    ensures forall u :: u in TodoOf(q, version) && u != t ==> Precedes(p, t, u)
  {
    forall u | u in TodoOf(q, version) && u != t ensures Precedes(p, t, u) {
      ShapeDecides(p, q, version, t, u);
    }
  }

  lemma StepWalked(p: Plan, todo: set<Id>, visited: seq<Id>, left: set<Id>, t: Id)
    requires Keyed(p) && Walked(p, todo, visited, left) && t in left
    requires forall u :: u in left && u != t ==> Precedes(p, t, u)
    ensures Walked(p, todo, visited + [t], left - {t})
  {
    StepInOrder(p, visited, left, t);
  }

  /** How far the walk from `p` has come: the tree is consistent, and only the visited tasks were completed. */
  ghost predicate Progress(p: Plan, q: Plan, version: Id, visited: seq<Id>)
    requires Keyed(p)
  {
    && Keyed(q) && Consistent(q) && SameShape(p, q) && CompletedIn(p, q, visited)
    && Walked(p, TodoOf(p, version), visited, TodoOf(q, version))
  }

  lemma StepWalks(p: Plan, q: Plan, version: Id, visited: seq<Id>, t: Id, r: Plan)
    requires Keyed(p) && Progress(p, q, version, visited)
    requires FirstTodo(q, version, t) && r == Updated(q, t, New(Done))
    ensures Progress(p, r, version, visited + [t]) && TodoOf(r, version) == TodoOf(q, version) - {t}
  {
    UpdatedKeyed(q, t, New(Done));
    UpdatedConsistent(q, t, New(Done));
    UpdatedShape(q, t, New(Done));
    UpdatedTasks(q, t, New(Done));
    ShapeTransitive(p, q, r);
    TodoShrinks(q, r, version, t);
    StepCompleted(p, q, r, visited, t);
    FirstLeft(p, q, version, t);
    StepWalked(p, TodoOf(p, version), visited, TodoOf(q, version), t);
  }

  class TaskService {
    var tasks: map<Id, Task>
    var feats: map<Id, Feat>
    var epics: map<Id, Epic>

    function State(): Plan
      reads this
    {
      Plan(tasks, feats, epics)
    }

    /** `recompute_epic_status`. */
    method RecomputeEpicStatus(epic: Id)
      requires epic in epics
      modifies this`epics
      ensures State() == EpicRecomputed(old(State()), epic)
    {
      var statuses := FeatStatuses(feats, epic);
      if statuses == {} {
        return;
      }
      var status := EpicAggregate(statuses);
      if epics[epic].status != status {
        epics := epics[epic := epics[epic].(status := status)];
      }
      assert old(epics)[epic := epics[epic]] == epics;
    }

    /** `recompute_feat_status`. */
    method RecomputeFeatStatus(feat: Id)
      requires feat in feats && feats[feat].epic in epics
      modifies this`feats, this`epics
      ensures State() == FeatRecomputed(old(State()), feat)
    {
      var statuses := TaskStatuses(tasks, feat);
      if statuses == {} {
        return;
      }
      var status := FeatAggregate(statuses);
      if feats[feat].status != status {
        feats := feats[feat := feats[feat].(status := status)];
        RecomputeEpicStatus(feats[feat].epic);
      }
    }

    /** `update`, as far as the status goes. */
    method Update(task: Id, patch: Patch) returns (found: bool)
      requires Keyed(State())
      modifies this
      ensures found <==> task in old(tasks)
      ensures State() == Updated(old(State()), task, patch)
      ensures tasks ==
        if found && patch.New? then old(tasks)[task := old(tasks)[task].(status := patch.status)] else old(tasks)
      ensures !found || patch == Unset ==> feats == old(feats) && epics == old(epics)
    {
      found := task in tasks;
      if !found {
        return;
      }
      if patch.New? {
        tasks := tasks[task := tasks[task].(status := patch.status)];
      }
      if patch != Unset {
        RecomputeFeatStatus(tasks[task].feat);
      }
    }

    /** `_next_task_number`. */
    method NextTaskNumber(feat: Id) returns (number: nat)
      ensures forall t :: t in tasks && tasks[t].feat == feat ==> tasks[t].number < number
      ensures number == 1 || exists t :: t in tasks && tasks[t].feat == feat && tasks[t].number + 1 == number
    {
      number := 1;
      var rest := tasks.Keys;
      while rest != {}
        invariant rest <= tasks.Keys
        invariant forall t :: t in tasks && t !in rest && tasks[t].feat == feat ==> tasks[t].number < number
        invariant number == 1 || exists t :: t in tasks && tasks[t].feat == feat && tasks[t].number + 1 == number
        decreases rest
      {
        var t :| t in rest;
        if tasks[t].feat == feat && tasks[t].number >= number {
          number := tasks[t].number + 1;
        }
        rest := rest - {t};
      }
    }

    /** `create`: the number is new within the feat, and no status is recomputed. */
    method Create(id: Id, feat: Id, status: Status) returns (number: Option<nat>)
      requires Keyed(State()) && id !in tasks
      modifies this`tasks
      ensures number.Some? <==> feat in feats
      ensures number.None? ==> tasks == old(tasks)
      ensures number.Some? ==> tasks == old(tasks)[id := Task(feat, number.value, status)]
      ensures number.Some? ==> forall t :: t in old(tasks) && tasks[t].feat == feat ==> tasks[t].number < number.value
      ensures Keyed(State())
    {
      if feat !in feats {
        return None;
      }
      var n := NextTaskNumber(feat);
      CreatedKeyed(State(), id, Task(feat, n, status));
      tasks := tasks[id := Task(feat, n, status)];
      number := Some(n);
    }

    /** `get_next_todo_task`: the first todo task of a version in plan order. */
    method GetNextTodo(version: Id) returns (next: Option<Id>)
      requires Keyed(State())
      ensures next.None? <==> TodoOf(State(), version) == {}
      ensures next.Some? ==> FirstTodo(State(), version, next.value)
      ensures next.Some? ==> next.value in tasks && tasks[next.value].status == Todo
      ensures next.Some? ==>
        forall u :: u in TodoOf(State(), version) && u != next.value ==>
            var t := next.value;
            var d, e := epics[feats[tasks[t].feat].epic].number, epics[feats[tasks[u].feat].epic].number;
            var f, g := feats[tasks[t].feat].number, feats[tasks[u].feat].number;
            d < e || (d == e && (f < g || (f == g && tasks[t].number < tasks[u].number)))
      ensures next.Some? ==> epics[feats[tasks[next.value].feat].epic].version == version
      ensures forall u :: u in TodoOf(State(), version) <==>
        u in tasks && tasks[u].status == Todo && epics[feats[tasks[u].feat].epic].version == version
    {
      var todo := TodoOf(State(), version);
      if todo == {} {
        return None;
      }
      var best :| best in todo;
      var rest := todo - {best};
      while rest != {}
        invariant rest <= todo && best in todo
        invariant forall u :: u in todo && u !in rest && u != best ==> Before(State(), best, u)
        decreases rest
      {
        var u :| u in rest;
        OrderIsTotal(State(), version, best, u);
        if Before(State(), u, best) {
          best := u;
        }
        rest := rest - {u};
      }
      next := Some(best);
    }

    /** The build loop: complete the next todo task until there is none. */
    method CompleteAll(version: Id) returns (visited: seq<Id>)
      requires Keyed(State()) && Consistent(State())
      modifies this
      ensures Keyed(State()) && Consistent(State()) && SameShape(old(State()), State())
      ensures forall i, j :: 0 <= i < j < |visited| ==> Precedes(old(State()), visited[i], visited[j])
      ensures forall t :: t in visited <==> t in old(tasks) && t in TodoOf(old(State()), version)
      ensures CompletedIn(old(State()), State(), visited)
      ensures TodoOf(State(), version) == {}
      ensures TasksDone(State(), version) <==> NoneStuck(old(State()), version)
      ensures NoneStuck(old(State()), version) ==> FeatsDone(State(), version) && EpicsDone(State(), version)
    {
      ghost var p := State();
      visited := [];
      SameShapeReflexive(p);
      var next := GetNextTodo(version);
      while next.Some?
        invariant Progress(p, State(), version, visited)
        invariant next.None? <==> TodoOf(State(), version) == {}
        invariant next.Some? ==> FirstTodo(State(), version, next.value)
        decreases TodoOf(State(), version)
      {
        ghost var q := State();
        StepWalks(p, q, version, visited, next.value, Updated(q, next.value, New(Done)));
        var _ := Update(next.value, New(Done));
        visited := visited + [next.value];
        next := GetNextTodo(version);
      }
      TasksDoneIff(p, State(), visited, version);
      if NoneStuck(p, version) {
        EverythingDone(State(), version);
      }
    }
  }

  /** Every task of the version is done. */
  predicate TasksDone(p: Plan, version: Id)
    requires Keyed(p)
  {
    forall t :: t in p.tasks && InVersion(p, t, version) ==> p.tasks[t].status == Done
  }

  /** No task of the version is in progress or failed. */
  predicate NoneStuck(p: Plan, version: Id)
    requires Keyed(p)
  {
    forall t :: t in p.tasks && InVersion(p, t, version) ==> p.tasks[t].status == Todo || p.tasks[t].status == Done
  }

  /** Every feat of the version that has tasks is done. */
  predicate FeatsDone(p: Plan, version: Id)
    requires Keyed(p)
  {
    forall f :: f in p.feats && p.epics[p.feats[f].epic].version == version && TaskStatuses(p.tasks, f) != {} ==>
      p.feats[f].status == Done
  }

  /** Every epic of the version that has feats is done if and only if its feats without tasks are. */
  predicate EpicsDone(p: Plan, version: Id)
    requires Keyed(p)
  {
    forall e :: e in p.epics && p.epics[e].version == version && FeatStatuses(p.feats, e) != {} ==>
      (p.epics[e].status == Finished <==> EmptyFeatsDone(p, e))
  }

  /** The visited tasks are the todo tasks, so all tasks are done in the end exactly when none was stuck. */
  lemma TasksDoneIff(p: Plan, q: Plan, visited: seq<Id>, version: Id)
    requires Keyed(p) && Keyed(q) && SameShape(p, q) && CompletedIn(p, q, visited)
    requires forall t :: t in visited <==> t in p.tasks && t in TodoOf(p, version)
    ensures TasksDone(q, version) <==> NoneStuck(p, version)
  {
    forall t | t in p.tasks ensures InVersion(p, t, version) == InVersion(q, t, version) {
      ShapeDecides(p, q, version, t, t);
    }
  }

  /** With all tasks done, everything that has tasks is done. */
  lemma EverythingDone(p: Plan, version: Id)
    requires Keyed(p) && Consistent(p) && TasksDone(p, version)
    ensures FeatsDone(p, version) && EpicsDone(p, version)
  {
    forall f | f in p.feats && p.epics[p.feats[f].epic].version == version && TaskStatuses(p.tasks, f) != {}
      ensures p.feats[f].status == Done
    {
      forall s | s in TaskStatuses(p.tasks, f) ensures s == Done {
        var t :| t in p.tasks && p.tasks[t].feat == f && p.tasks[t].status == s;
      }
      var s :| s in TaskStatuses(p.tasks, f);
      assert TaskStatuses(p.tasks, f) == {Done} && FeatAgrees(p, f);
    }
    forall e | e in p.epics && p.epics[e].version == version && FeatStatuses(p.feats, e) != {}
      ensures p.epics[e].status == Finished <==> EmptyFeatsDone(p, e)
    {
      assert EpicAgrees(p, e);
      EpicDoneIff(p, e);
    }
  }

  /** An epic's feats without tasks are done: completing tasks never does that for them. */
  predicate EmptyFeatsDone(p: Plan, e: Id) {
    forall f :: f in p.feats && p.feats[f].epic == e && TaskStatuses(p.tasks, f) == {} ==> p.feats[f].status == Done
  }

  lemma EpicDoneIff(p: Plan, e: Id)
    requires FeatStatuses(p.feats, e) != {}
    requires forall f :: f in p.feats && p.feats[f].epic == e && TaskStatuses(p.tasks, f) != {} ==>
      p.feats[f].status == Done
    ensures FeatStatuses(p.feats, e) == {Done} <==> EmptyFeatsDone(p, e)
  {
    var statuses := FeatStatuses(p.feats, e);
    var x :| x in statuses;
    if EmptyFeatsDone(p, e) {
      forall s | s in statuses ensures s == Done {
        var f :| f in p.feats && p.feats[f].epic == e && p.feats[f].status == s;
      }
      assert x == Done;
    } else {
      var f :| f in p.feats && p.feats[f].epic == e && TaskStatuses(p.tasks, f) == {} && p.feats[f].status != Done;
      assert p.feats[f].status in statuses;
    }
  }
}
