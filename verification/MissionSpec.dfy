/** The mission parser's dependency checks and the Kahn cycle check. */
module MissionSpec {
  import opened Prelude
  import opened Graph

  datatype Task = Task(id: string, dependsOn: seq<string>)

  // ---------------------------------------------------------------- parsing

  /** The parts of a decoded mission specification that decide acceptance. */
  datatype RawSpec = RawSpec(hasId: bool, hasGoal: bool, tasks: RawTasks)

  datatype RawTasks = TasksMissing | TasksNotAList | TaskList(entries: seq<RawTask>)

  datatype RawTask =
    | NotADict
    | TaskDict(id: Option<string>, hasTitle: bool, hasPrompt: bool, dependsOn: RawDeps)

  datatype RawDeps = DepsNotAList | DepList(ids: seq<string>)

  datatype SpecError =
    | MissingSpecId
    | MissingGoal
    | MissingTasks
    | TasksMustBeList
    | TaskMustBeDict(index: nat)
    | MissingTaskId(index: nat)
    | MissingTitle(index: nat)
    | MissingPrompt(index: nat)
    | DuplicateTaskIds
    | DependsOnMustBeList(index: nat)
    | SelfDependency(index: nat)
    | MissingDependency(id: string)

  function SpecFault(data: RawSpec): Option<SpecError> {
    if !data.hasId then Some(MissingSpecId)
    else if !data.hasGoal then Some(MissingGoal)
    else if data.tasks.TasksMissing? then Some(MissingTasks)
    else if data.tasks.TasksNotAList? then Some(TasksMustBeList)
    else None
  }

  function FirstMissing(deps: seq<string>, known: set<string>): Option<string> {
    if deps == [] then None
    else if deps[0] !in known then Some(deps[0])
    else FirstMissing(deps[1..], known)
  }

  function EarlierIds(entries: seq<RawTask>, i: nat): set<string>
    requires i <= |entries|
  {
    set j | 0 <= j < i && entries[j].TaskDict? && entries[j].id.Some? :: entries[j].id.value
  }

  /** What is wrong with entry i once all earlier entries are accepted. */
  function EntryFault(entries: seq<RawTask>, i: nat): Option<SpecError>
    requires i < |entries|
  {
    var e := entries[i];
    if e.NotADict? then Some(TaskMustBeDict(i))
    else if e.id.None? then Some(MissingTaskId(i))
    else if !e.hasTitle then Some(MissingTitle(i))
    else if !e.hasPrompt then Some(MissingPrompt(i))
    else if e.id.value in EarlierIds(entries, i) then Some(DuplicateTaskIds)
    else if e.dependsOn.DepsNotAList? then Some(DependsOnMustBeList(i))
    else if e.id.value in e.dependsOn.ids then Some(SelfDependency(i))
    else match FirstMissing(e.dependsOn.ids, EarlierIds(entries, i))
      case Some(d) => Some(MissingDependency(d))
      case None => None
  }

  lemma {:induction false} FirstMissingNone(deps: seq<string>, known: set<string>)
    ensures FirstMissing(deps, known).None? <==> forall d <- deps :: d in known
  {
    if deps != [] {
      FirstMissingNone(deps[1..], known);
      assert deps == [deps[0]] + deps[1..];
    }
  }

  /** `_parse_dict`: the first fault in reading order, or the tasks in list order. */
  method ParseDict(data: RawSpec) returns (r: Result<seq<Task>, SpecError>)
    ensures SpecFault(data).Some? ==> r == Err(SpecFault(data).value)
    ensures SpecFault(data).None? ==>
      var entries := data.tasks.entries;
      match r
      case Ok(tasks) =>
        && |tasks| == |entries|
        && forall i :: 0 <= i < |entries| ==>
          EntryFault(entries, i).None? && tasks[i] == Task(entries[i].id.value, entries[i].dependsOn.ids)
      case Err(e) =>
        exists i :: 0 <= i < |entries| && EntryFault(entries, i) == Some(e)
          && forall j :: 0 <= j < i ==> EntryFault(entries, j).None?
  {
    if !data.hasId { return Err(MissingSpecId); }
    if !data.hasGoal { return Err(MissingGoal); }
    if data.tasks.TasksMissing? { return Err(MissingTasks); }
    if data.tasks.TasksNotAList? { return Err(TasksMustBeList); }
    var entries := data.tasks.entries;
    var taskIds: set<string> := {};
    var tasks: seq<Task> := [];
    for i := 0 to |entries|
      invariant taskIds == EarlierIds(entries, i)
      invariant |tasks| == i
      invariant forall j :: 0 <= j < i ==>
        EntryFault(entries, j).None? && tasks[j] == Task(entries[j].id.value, entries[j].dependsOn.ids)
    {
      var e := entries[i];
      ghost var fault := EntryFault(entries, i);
      if e.NotADict? { return Err(TaskMustBeDict(i)); }
      if e.id.None? { return Err(MissingTaskId(i)); }
      if !e.hasTitle { return Err(MissingTitle(i)); }
      if !e.hasPrompt { return Err(MissingPrompt(i)); }
      var taskId := e.id.value;
      if taskId in taskIds { return Err(DuplicateTaskIds); }
      ghost var earlier := taskIds;
      taskIds := taskIds + {taskId};
      if e.dependsOn.DepsNotAList? { return Err(DependsOnMustBeList(i)); }
      var dependsOn := e.dependsOn.ids;
      if taskId in dependsOn { return Err(SelfDependency(i)); }
      for k := 0 to |dependsOn|
        invariant FirstMissing(dependsOn, earlier) == FirstMissing(dependsOn[k..], earlier)
      {
        if dependsOn[k] !in taskIds {
          return Err(MissingDependency(dependsOn[k]));
        }
        assert dependsOn[k] in earlier;
        assert dependsOn[k..][1..] == dependsOn[k + 1..];
      }
      tasks := tasks + [Task(taskId, dependsOn)];
      assert EarlierIds(entries, i + 1) == earlier + {taskId};
    }
    r := Ok(tasks);
  }

  /** Tasks in list order: ids differ, and a task depends only on tasks before it. */
  ghost predicate Ordered(tasks: seq<Task>) {
    && Distinct(Ids(tasks))
    && forall i, d :: 0 <= i < |tasks| && d in tasks[i].dependsOn ==> d in Ids(tasks[..i])
  }

  function Ids(tasks: seq<Task>): (r: seq<string>)
    ensures |r| == |tasks| && forall i :: 0 <= i < |r| ==> r[i] == tasks[i].id
  {
    if tasks == [] then [] else [tasks[0].id] + Ids(tasks[1..])
  }

  /** Every accepted specification lists its tasks in dependency order. */
  lemma AcceptedOrdered(entries: seq<RawTask>, tasks: seq<Task>)
    requires |tasks| == |entries|
    requires forall i :: 0 <= i < |entries| ==>
      EntryFault(entries, i).None? && tasks[i] == Task(entries[i].id.value, entries[i].dependsOn.ids)
    ensures Ordered(tasks)
  {
    forall i, j | 0 <= i < j < |tasks| ensures Ids(tasks)[i] != Ids(tasks)[j] {
      assert entries[i].id.value in EarlierIds(entries, j);
    }
    forall i, d | 0 <= i < |tasks| && d in tasks[i].dependsOn ensures d in Ids(tasks[..i]) {
      FirstMissingNone(tasks[i].dependsOn, EarlierIds(entries, i));
      var j :| 0 <= j < i && entries[j].id == Some(d);
      assert Ids(tasks[..i])[j] == d;
    }
  }

  // ---------------------------------------------------------------- dependency graph

  /** An edge for every dependency on a task of the list; unknown ids carry none. */
  ghost function EdgesOf(tasks: seq<Task>): Edges {
    set i, d | 0 <= i < |tasks| && d in tasks[i].dependsOn && d in Ids(tasks) :: (d, tasks[i].id)
  }

  lemma OrderedAcyclic(tasks: seq<Task>)
    requires Ordered(tasks)
    ensures Acyclic(EdgesOf(tasks))
  {
    hide Ordered;
    var ids := Ids(tasks);
    var rank: map<string, nat> := map id | id in ids :: IndexOf(ids, id);
    forall e <- EdgesOf(tasks) ensures e.0 in rank && e.1 in rank && rank[e.0] < rank[e.1] {
      var i, d :| 0 <= i < |tasks| && d in tasks[i].dependsOn && d in ids && e == (d, tasks[i].id);
      EarlierIndex(tasks, i, d);
      assert ids[i] == e.1;
    }
    RankedAcyclic(EdgesOf(tasks), rank);
  }

  lemma EarlierIndex(tasks: seq<Task>, i: nat, d: string)
    requires Ordered(tasks) && i < |tasks| && d in tasks[i].dependsOn
    ensures d in Ids(tasks) && IndexOf(Ids(tasks), d) < i == IndexOf(Ids(tasks), tasks[i].id)
  {
    assert d in Ids(tasks[..i]);
    var j :| 0 <= j < i && Ids(tasks[..i])[j] == d;
    assert Ids(tasks)[j] == d && Ids(tasks)[i] == tasks[i].id;
  }

  // Edges as they are counted by the code: one for every listed dependency, in reading order.

  ghost function TaskEdges(ids: set<string>, id: string, deps: seq<string>): seq<(string, string)> {
    if deps == [] then []
    else
      var n := |deps| - 1;
      TaskEdges(ids, id, deps[..n]) + (if deps[n] in ids then [(deps[n], id)] else [])
  }

  ghost function EdgeList(ids: set<string>, tasks: seq<Task>): seq<(string, string)> {
    if tasks == [] then []
    else
      var n := |tasks| - 1;
      EdgeList(ids, tasks[..n]) + TaskEdges(ids, tasks[n].id, tasks[n].dependsOn)
  }

  lemma {:induction false} TaskEdgesElements(ids: set<string>, id: string, deps: seq<string>, e: (string, string))
    ensures e in TaskEdges(ids, id, deps) <==> e.1 == id && e.0 in deps && e.0 in ids
  {
    if deps != [] {
      var n := |deps| - 1;
      TaskEdgesElements(ids, id, deps[..n], e);
      assert deps == deps[..n] + [deps[n]];
    }
  }

  lemma {:induction false} EdgeListElements(ids: set<string>, tasks: seq<Task>, e: (string, string))
    ensures e in EdgeList(ids, tasks)
      <==> exists i :: 0 <= i < |tasks| && e.1 == tasks[i].id && e.0 in tasks[i].dependsOn && e.0 in ids
  {
    if tasks != [] {
      var n := |tasks| - 1;
      EdgeListElements(ids, tasks[..n], e);
      TaskEdgesElements(ids, tasks[n].id, tasks[n].dependsOn, e);
      if i :| 0 <= i < |tasks| && e.1 == tasks[i].id && e.0 in tasks[i].dependsOn && e.0 in ids {
        assert i < n ==> tasks[..n][i] == tasks[i];
      }
    }
  }

  lemma EdgeListExact(tasks: seq<Task>)
    ensures forall e :: e in EdgeList(Elements(Ids(tasks)), tasks) <==> e in EdgesOf(tasks)
  {
    forall e: (string, string) ensures e in EdgeList(Elements(Ids(tasks)), tasks) <==> e in EdgesOf(tasks) {
      EdgeListElements(Elements(Ids(tasks)), tasks, e);
    }
  }

  ghost function Targets(edges: seq<(string, string)>, u: string): seq<string> {
    if edges == [] then []
    else
      var n := |edges| - 1;
      Targets(edges[..n], u) + (if edges[n].0 == u then [edges[n].1] else [])
  }

  /** How many listed edges enter v from nodes outside `done`. */
  ghost function Into(edges: seq<(string, string)>, v: string, done: set<string>): nat {
    if edges == [] then 0
    else
      var n := |edges| - 1;
      Into(edges[..n], v, done) + (if edges[n].1 == v && edges[n].0 !in done then 1 else 0)
  }

  lemma {:induction false} IntoDone(edges: seq<(string, string)>, v: string, done: set<string>, u: string)
    requires u !in done
    ensures Into(edges, v, done) == Into(edges, v, done + {u}) + multiset(Targets(edges, u))[v]
  {
    if edges != [] {
      IntoDone(edges[..|edges| - 1], v, done, u);
    }
  }

  lemma {:induction false} IntoZero(edges: seq<(string, string)>, v: string, done: set<string>)
    ensures Into(edges, v, done) == 0 <==> forall u :: (u, v) in edges ==> u in done
  {
    if edges != [] {
      var n := |edges| - 1;
      IntoZero(edges[..n], v, done);
      assert edges == edges[..n] + [edges[n]];
    }
  }

  lemma EdgeSnoc(edges: seq<(string, string)>, e: (string, string), v: string)
    ensures Targets(edges + [e], v) == Targets(edges, v) + (if e.0 == v then [e.1] else [])
    ensures Into(edges + [e], v, {}) == Into(edges, v, {}) + (if e.1 == v then 1 else 0)
  {
    assert (edges + [e])[..|edges|] == edges;
  }

  // ---------------------------------------------------------------- Kahn

  /** The queue holds exactly the open nodes without open dependencies. */
  ghost predicate Frontier(ids: set<string>, edges: seq<(string, string)>, queue: seq<string>, done: set<string>) {
    && Distinct(queue)
    && done <= ids
    && (forall v :: v in queue <==> v in ids && v !in done && Into(edges, v, done) == 0)
    && (forall v <- done :: Into(edges, v, done) == 0)
  }

  lemma NoEdges(ids: set<string>)
    ensures EdgeList(ids, []) == [] && forall v :: Targets([], v) == [] && Into([], v, {}) == 0
  {
  }

  /** The task ids without repetition, in the order a dictionary keeps them. */
  method InsertionOrder(tasks: seq<Task>) returns (keys: seq<string>)
    ensures Distinct(keys) && Elements(keys) == Elements(Ids(tasks))
  {
    keys := [];
    for i := 0 to |tasks|
      invariant Distinct(keys) && Elements(keys) == Elements(Ids(tasks)[..i])
    {
      ghost var before := keys;
      if tasks[i].id !in keys {
        keys := keys + [tasks[i].id];
      }
      ElementsSnoc(before, tasks[i].id);
      ElementsSnoc(Ids(tasks)[..i], tasks[i].id);
      assert Ids(tasks)[..i + 1] == Ids(tasks)[..i] + [tasks[i].id];
      assert tasks[i].id in before ==> tasks[i].id in Elements(before);
    }
    assert Ids(tasks)[..|tasks|] == Ids(tasks);
  }

  /** The dictionaries `adj` and `in_degree` once the given edges are entered. */
  ghost predicate Counted(ids: set<string>, edges: seq<(string, string)>,
                          adj: map<string, seq<string>>, inDegree: map<string, nat>)
  {
    && adj.Keys == inDegree.Keys == ids
    && forall v <- ids :: adj[v] == Targets(edges, v) && inDegree[v] == Into(edges, v, {})
  }

  /** The adjacency lists and in-degrees, keyed in insertion order. */
  method BuildGraph(tasks: seq<Task>)
    returns (keys: seq<string>, adj: map<string, seq<string>>, inDegree: map<string, nat>)
    ensures Distinct(keys) && Elements(keys) == Elements(Ids(tasks))
    ensures Counted(Elements(Ids(tasks)), EdgeList(Elements(Ids(tasks)), tasks), adj, inDegree)
  {
    hide Targets, Into, TaskEdges;
    ghost var ids := Elements(Ids(tasks));
    keys := InsertionOrder(tasks);
    assert forall k :: k in keys <==> k in Elements(keys);
    assert tasks[..0] == [];
    adj := map k | k in keys :: [];
    inDegree := map k | k in keys :: 0;
    NoEdges(ids);
    for i := 0 to |tasks|
      invariant Counted(ids, EdgeList(ids, tasks[..i]), adj, inDegree)
    {
      assert tasks[..i + 1][..i] == tasks[..i];
      assert Ids(tasks)[i] == tasks[i].id;
      adj, inDegree := AddTask(ids, EdgeList(ids, tasks[..i]), tasks[i], adj, inDegree);
    }
    assert tasks[..|tasks|] == tasks;
  }

  method AddTask(ghost ids: set<string>, ghost edges: seq<(string, string)>, task: Task,
                 adj: map<string, seq<string>>, inDegree: map<string, nat>)
    returns (adj': map<string, seq<string>>, inDegree': map<string, nat>)
    requires Counted(ids, edges, adj, inDegree) && task.id in ids
    ensures Counted(ids, edges + TaskEdges(ids, task.id, task.dependsOn), adj', inDegree')
  {
    hide Targets, Into;
    adj', inDegree' := adj, inDegree;
    var deps := task.dependsOn;
    ghost var now := edges;
    for k := 0 to |deps|
      invariant Counted(ids, now, adj', inDegree')
      invariant now == edges + TaskEdges(ids, task.id, deps[..k])
    {
      assert deps[..k + 1][..k] == deps[..k];
      if deps[k] in adj' {
        adj' := adj'[deps[k] := adj'[deps[k]] + [task.id]];
        inDegree' := inDegree'[task.id := inDegree'[task.id] + 1];
        ghost var e := (deps[k], task.id);
        forall v ensures Targets(now + [e], v) == Targets(now, v) + (if e.0 == v then [e.1] else [])
          ensures Into(now + [e], v, {}) == Into(now, v, {}) + (if e.1 == v then 1 else 0)
        {
          EdgeSnoc(now, e, v);
        }
        assert now + [e] == edges + TaskEdges(ids, task.id, deps[..k + 1]);
        now := now + [e];
      }
    }
    assert deps[..|deps|] == deps;
  }

  lemma RelaxSplit(edges: seq<(string, string)>, before: set<string>, current: string)
    requires current !in before && Into(edges, current, before) == 0
    ensures forall v ::
            Into(edges, v, before) == Into(edges, v, before + {current}) + multiset(Targets(edges, current))[v]
  {
    forall v
      ensures Into(edges, v, before) == Into(edges, v, before + {current}) + multiset(Targets(edges, current))[v]
    {
      IntoDone(edges, v, before, current);
    }
  }

  lemma TakeOne(s: seq<string>, k: nat)
    requires k < |s|
    ensures multiset(s[..k + 1]) == multiset(s[..k]) + multiset{s[k]}
    ensures multiset(s[..k + 1]) <= multiset(s)
    ensures s[k] in Elements(s)
  {
    assert s[..k + 1] == s[..k] + [s[k]];
    assert s == s[..k + 1] + s[k + 1..];
  }

  /** While neighbours of `current` are lowered: `seen` of them so far. */
  ghost predicate Relaxing(ids: set<string>, edges: seq<(string, string)>, before: set<string>, current: string,
                           seen: multiset<string>, queue: seq<string>, inDegree: map<string, nat>)
  {
    && inDegree.Keys == ids
    && (forall v <- ids :: inDegree[v] == Into(edges, v, before) - seen[v])
    && Distinct(queue)
    && (forall v :: v in queue <==> v in ids && v !in before && v != current && inDegree[v] == 0)
  }

  lemma RelaxStart(ids: set<string>, edges: seq<(string, string)>, before: set<string>, current: string,
                   queue: seq<string>, inDegree: map<string, nat>)
    requires Frontier(ids, edges, [current] + queue, before)
    requires inDegree.Keys == ids && forall v <- ids :: inDegree[v] == Into(edges, v, before)
    ensures Relaxing(ids, edges, before, current, multiset{}, queue, inDegree)
  {
    hide Into;
    var all := [current] + queue;
    assert forall v :: v in all <==> v == current || v in queue;
    assert forall i :: 0 <= i < |queue| ==> all[i + 1] == queue[i];
    assert all[0] == current;
  }

  lemma RelaxStep(ids: set<string>, edges: seq<(string, string)>, before: set<string>, current: string,
                  seen: multiset<string>, queue: seq<string>, inDegree: map<string, nat>, w: string)
    requires Relaxing(ids, edges, before, current, seen, queue, inDegree)
    requires w in ids && w !in before && w != current && inDegree[w] > 0
    ensures var less := inDegree[w := inDegree[w] - 1];
      Relaxing(ids, edges, before, current, seen + multiset{w}, if less[w] == 0 then queue + [w] else queue, less)
  {
    hide Into;
    assert w !in queue;
  }

  lemma RelaxEnd(ids: set<string>, edges: seq<(string, string)>, before: set<string>, current: string,
                 queue: seq<string>, inDegree: map<string, nat>)
    requires Relaxing(ids, edges, before, current, multiset(Targets(edges, current)), queue, inDegree)
    requires current in ids && current !in before && Into(edges, current, before) == 0
    requires before <= ids && forall v <- before :: Into(edges, v, before) == 0
    ensures forall v <- ids :: inDegree[v] == Into(edges, v, before + {current})
    ensures Frontier(ids, edges, queue, before + {current})
  {
    hide Into, Targets;
    RelaxSplit(edges, before, current);
  }

  /** A neighbour of a removed node is open, and its in-degree counts the edge. */
  lemma NeighbourOpen(edges: seq<(string, string)>, before: set<string>, current: string, k: nat)
    requires current !in before && Into(edges, current, before) == 0
    requires forall v <- before :: Into(edges, v, before) == 0
    requires k < |Targets(edges, current)|
    ensures var w := Targets(edges, current)[k];
      w !in before && w != current && Into(edges, w, before) > multiset(Targets(edges, current)[..k])[w]
  {
    hide Into, Targets;
    RelaxSplit(edges, before, current);
    TakeOne(Targets(edges, current), k);
  }

  /** Lowers the in-degree of every neighbour of a removed node and queues those that reach zero. */
  method Relax(ghost ids: set<string>, ghost edges: seq<(string, string)>, ghost before: set<string>,
               current: string, targets: seq<string>, queue: seq<string>, inDegree: map<string, nat>)
    returns (queue': seq<string>, inDegree': map<string, nat>)
    requires Frontier(ids, edges, [current] + queue, before)
    requires targets == Targets(edges, current) && Elements(targets) <= ids
    requires inDegree.Keys == ids && forall v <- ids :: inDegree[v] == Into(edges, v, before)
    ensures inDegree'.Keys == ids && forall v <- ids :: inDegree'[v] == Into(edges, v, before + {current})
    ensures Frontier(ids, edges, queue', before + {current})
  {
    hide Into, Targets, Distinct;
    queue', inDegree' := queue, inDegree;
    assert ([current] + queue)[0] == current;
    RelaxStart(ids, edges, before, current, queue, inDegree);
    for k := 0 to |targets|
      invariant Relaxing(ids, edges, before, current, multiset(targets[..k]), queue', inDegree')
    {
      var w := targets[k];
      NeighbourOpen(edges, before, current, k);
      TakeOne(targets, k);
      RelaxStep(ids, edges, before, current, multiset(targets[..k]), queue', inDegree', w);
      inDegree' := inDegree'[w := inDegree'[w] - 1];
      if inDegree'[w] == 0 {
        queue' := queue' + [w];
      }
    }
    assert targets[..|targets|] == targets;
    RelaxEnd(ids, edges, before, current, queue', inDegree');
  }

  lemma FrontierWithin(ids: set<string>, edges: seq<(string, string)>, queue: seq<string>, done: set<string>)
    requires Frontier(ids, edges, queue, done)
    ensures done <= ids
  {
  }

  lemma KahnVerdict(tasks: seq<Task>, edges: seq<(string, string)>, done: set<string>, rank: map<string, nat>)
    requires edges == EdgeList(Elements(Ids(tasks)), tasks)
    requires Frontier(Elements(Ids(tasks)), edges, [], done) && Removed(edges, done, rank)
    ensures |done| == |tasks| <==> Distinct(Ids(tasks)) && Acyclic(EdgesOf(tasks))
  {
    hide *;
    var ids := Elements(Ids(tasks));
    DistinctLength(Ids(tasks));
    FrontierWithin(ids, edges, [], done);
    SubsetSize(done, ids);
    if |done| == |tasks| {
      AllRemoved(tasks, edges, done, rank);
    } else if Distinct(Ids(tasks)) {
      SomeRemain(tasks, edges, done);
    }
  }

  lemma AllRemoved(tasks: seq<Task>, edges: seq<(string, string)>, done: set<string>, rank: map<string, nat>)
    requires edges == EdgeList(Elements(Ids(tasks)), tasks)
    requires done == Elements(Ids(tasks)) && Removed(edges, done, rank)
    ensures Acyclic(EdgesOf(tasks))
  {
    hide EdgesOf, EdgeList, Acyclic;
    EdgeListExact(tasks);
    forall e <- EdgesOf(tasks) ensures e.0 in rank && e.1 in rank && rank[e.0] < rank[e.1] {
      EdgeEnds(tasks, e);
      assert e in edges;
    }
    RankedAcyclic(EdgesOf(tasks), rank);
  }

  lemma SomeRemain(tasks: seq<Task>, edges: seq<(string, string)>, done: set<string>)
    requires edges == EdgeList(Elements(Ids(tasks)), tasks)
    requires Frontier(Elements(Ids(tasks)), edges, [], done) && done != Elements(Ids(tasks))
    ensures !Acyclic(EdgesOf(tasks))
  {
    hide EdgesOf, EdgeList, Acyclic, Into;
    var open := Elements(Ids(tasks)) - done;
    assert Elements(Ids(tasks)) == done + open;
    EdgeListExact(tasks);
    forall v <- open ensures HasPredecessor(EdgesOf(tasks), open, v) {
      IntoZero(edges, v, done);
      assert v !in [];
      var u :| (u, v) in edges && u !in done;
      EdgeEnds(tasks, (u, v));
    }
    PredecessorsCycle(EdgesOf(tasks), open);
  }

  lemma EdgeEnds(tasks: seq<Task>, e: (string, string))
    requires e in EdgesOf(tasks)
    ensures e.0 in Elements(Ids(tasks)) && e.1 in Elements(Ids(tasks))
  {
    var i, d :| 0 <= i < |tasks| && d in tasks[i].dependsOn && d in Ids(tasks) && e == (d, tasks[i].id);
    assert Ids(tasks)[i] == e.1;
  }

  lemma {:induction false} TargetsElements(edges: seq<(string, string)>, u: string)
    ensures forall v :: v in Targets(edges, u) <==> (u, v) in edges
  {
    if edges != [] {
      var n := |edges| - 1;
      TargetsElements(edges[..n], u);
      assert edges == edges[..n] + [edges[n]];
    }
  }

  method InitialQueue(keys: seq<string>, inDegree: map<string, nat>) returns (queue: seq<string>)
    requires Distinct(keys) && inDegree.Keys == Elements(keys)
    ensures Distinct(queue) && forall v :: v in queue <==> v in inDegree && inDegree[v] == 0
  {
    queue := [];
    for i := 0 to |keys|
      invariant Distinct(queue) && forall v :: v in queue <==> v in keys[..i] && inDegree[v] == 0
    {
      assert keys[..i + 1] == keys[..i] + [keys[i]];
      if inDegree[keys[i]] == 0 {
        queue := queue + [keys[i]];
      }
    }
    assert keys[..|keys|] == keys;
    assert forall v :: v in keys <==> v in Elements(keys);
  }

  /** Removed nodes are ranked in removal order, and all their dependencies went before them. */
  ghost predicate Removed(edges: seq<(string, string)>, done: set<string>, rank: map<string, nat>) {
    && rank.Keys == done
    && (forall v <- done :: rank[v] < |done|)
    && (forall e <- edges :: e.1 in done ==> e.0 in done && rank[e.0] < rank[e.1])
  }

  lemma RemoveNext(edges: seq<(string, string)>, done: set<string>, rank: map<string, nat>, current: string)
    requires Removed(edges, done, rank) && current !in done && Into(edges, current, done) == 0
    ensures Removed(edges, done + {current}, rank[current := |done|])
  {
    hide Into;
    IntoZero(edges, current, done);
    assert |done + {current}| == |done| + 1;
    var done', rank' := done + {current}, rank[current := |done|];
    forall e <- edges | e.1 in done' ensures e.0 in done' && rank'[e.0] < rank'[e.1] {
      assert e == (e.0, e.1);
    }
  }

  /** `_check_cycles`: repeatedly removes a task that no remaining task has to precede. */
  method CheckCycles(tasks: seq<Task>) returns (ok: bool)
    ensures ok <==> Distinct(Ids(tasks)) && Acyclic(EdgesOf(tasks))
  {
    hide *;
    ghost var ids := Elements(Ids(tasks));
    ghost var edges := EdgeList(ids, tasks);
    var keys, adj, inDegree := BuildGraph(tasks);
    CountedKeys(ids, edges, adj, inDegree);
    var queue := InitialQueue(keys, inDegree);
    var processed := 0;
    ghost var done: set<string> := {};
    ghost var rank: map<string, nat> := map[];
    StartFrontier(ids, edges, queue, adj, inDegree);
    while queue != []
      invariant adj.Keys == inDegree.Keys == ids
      invariant forall u <- ids :: adj[u] == Targets(edges, u)
      invariant forall v <- ids :: inDegree[v] == Into(edges, v, done)
      invariant Frontier(ids, edges, queue, done)
      invariant processed == |done|
      invariant Removed(edges, done, rank)
      decreases ids - done
    {
      var current := queue[0];
      assert queue == [current] + queue[1..];
      FrontierHead(ids, edges, queue, done);
      TargetsWithin(tasks, current);
      RemoveNext(edges, done, rank, current);
      queue := queue[1..];
      processed := processed + 1;
      queue, inDegree := Relax(ids, edges, done, current, adj[current], queue, inDegree);
      rank := rank[current := |done|];
      done := done + {current};
    }
    ok := processed == |tasks|;
    KahnVerdict(tasks, edges, done, rank);
  }

  lemma CountedKeys(ids: set<string>, edges: seq<(string, string)>,
                    adj: map<string, seq<string>>, inDegree: map<string, nat>)
    requires Counted(ids, edges, adj, inDegree)
    ensures adj.Keys == inDegree.Keys == ids
    ensures forall v <- ids :: adj[v] == Targets(edges, v) && inDegree[v] == Into(edges, v, {})
  {
  }

  lemma StartFrontier(ids: set<string>, edges: seq<(string, string)>, queue: seq<string>,
                      adj: map<string, seq<string>>, inDegree: map<string, nat>)
    requires Counted(ids, edges, adj, inDegree)
    requires Distinct(queue) && forall v :: v in queue <==> v in inDegree && inDegree[v] == 0
    ensures Frontier(ids, edges, queue, {}) && Removed(edges, {}, map[])
  {
  }

  lemma FrontierHead(ids: set<string>, edges: seq<(string, string)>, queue: seq<string>, done: set<string>)
    requires Frontier(ids, edges, queue, done) && queue != []
    ensures queue[0] in ids && queue[0] !in done && Into(edges, queue[0], done) == 0
  {
    assert queue[0] in queue;
  }

  lemma TargetsWithin(tasks: seq<Task>, u: string)
    ensures var ids := Elements(Ids(tasks)); Elements(Targets(EdgeList(ids, tasks), u)) <= ids
  {
    hide EdgesOf, EdgeList, Targets;
    var edges := EdgeList(Elements(Ids(tasks)), tasks);
    EdgeListExact(tasks);
    TargetsElements(edges, u);
    forall v <- Targets(edges, u) ensures v in Elements(Ids(tasks)) {
      EdgeEnds(tasks, (u, v));
    }
  }
}
