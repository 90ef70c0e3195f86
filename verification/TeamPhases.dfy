/** The phases that binding a team gives to its assignments, and the milestones made of them. */
module TeamPhases {
  import opened Prelude
  import opened Graph
  import opened Execution
  import opened ExecutionRuns
  import opened Milestones
  import opened MilestoneRuns

  type Phases = map<string, nat>

  /** Every prerequisite lies in a lower phase than what waits for it. */
  ghost predicate Rises(pairs: seq<(string, string)>, phase: Phases) {
    forall e <- pairs :: e.0 in phase && e.1 in phase && phase[e.0] < phase[e.1]
  }

  predicate Known(pairs: seq<(string, string)>, phase: Phases) {
    forall e <- pairs :: e.0 in phase && e.1 in phase
  }

  ghost predicate AtMost(a: Phases, b: Phases) {
    a.Keys == b.Keys && forall x <- a :: a[x] <= b[x]
  }

  // ---------------------------------------------------------------- numbering an acyclic graph

  ghost predicate Climbs(edges: Edges, nodes: set<string>, rank: map<string, nat>) {
    && rank.Keys == nodes && (forall v <- nodes :: rank[v] < |nodes|)
    && forall e <- edges :: e.0 in nodes && e.1 in nodes ==> rank[e.0] < rank[e.1]
  }

  /** The nodes of an acyclic graph can be numbered so that every edge climbs. */
  lemma {:induction false} Numbering(edges: Edges, nodes: set<string>) returns (rank: map<string, nat>)
    requires Acyclic(edges)
    ensures Climbs(edges, nodes, rank)
    decreases |nodes|
  {
    hide Acyclic;
    if nodes == {} {
      rank := map[];
    } else {
      if forall v <- nodes :: HasPredecessor(edges, nodes, v) {
        PredecessorsCycle(edges, nodes);
        assert false by { NoCycle(edges); }
      }
      var first :| first in nodes && !HasPredecessor(edges, nodes, first);
      var rest := Numbering(edges, nodes - {first});
      rank := map v | v in nodes :: if v == first then 0 else rest[v] + 1;
      forall e <- edges | e.0 in nodes && e.1 in nodes ensures rank[e.0] < rank[e.1] {
        assert (e.0, e.1) in edges;
      }
    }
  }

  lemma NoCycle(edges: Edges)
    requires Acyclic(edges)
    ensures !exists p :: Cycle(edges, p)
  {
  }

  // ---------------------------------------------------------------- the relaxation loop

  /** At or above the start, and at or below everything that rises from there. */
  ghost predicate LeastSoFar(pairs: seq<(string, string)>, start: Phases, phase: Phases) {
    AtMost(start, phase) && forall q: Phases | AtMost(start, q) && Rises(pairs, q) :: AtMost(phase, q)
  }

  ghost predicate Above(phase: Phases, e: (string, string)) {
    e.0 in phase && e.1 in phase && phase[e.0] < phase[e.1]
  }

  /** What is numbered below `r` lies above its prerequisites, if `rank` numbers the graph. */
  ghost predicate SettledBelow(pairs: seq<(string, string)>, phase: Phases, rank: map<string, nat>, r: nat) {
    Climbs(Elements(pairs), phase.Keys, rank) ==>
      forall e <- pairs :: e.0 in phase && e.1 in phase && rank[e.1] < r ==> Above(phase, e)
  }

  /** In the middle of round `r`, before pair `i`. */
  ghost predicate Sweeping(pairs: seq<(string, string)>, start: Phases, rank: map<string, nat>, r: nat, i: nat,
                           phase: Phases, changed: bool)
    requires i <= |pairs|
  {
    && LeastSoFar(pairs, start, phase) && Known(pairs[..i], phase) && SettledBelow(pairs, phase, rank, r)
    && (!changed ==> forall e <- pairs[..i] :: Above(phase, e))
    && (Climbs(Elements(pairs), phase.Keys, rank) ==>
          && (changed ==> r < |start.Keys|)
          && forall e <- pairs[..i] :: e.0 in phase && e.1 in phase && rank[e.1] <= r ==> Above(phase, e))
  }

  lemma SweepStart(pairs: seq<(string, string)>, start: Phases, rank: map<string, nat>, r: nat, phase: Phases)
    requires LeastSoFar(pairs, start, phase) && SettledBelow(pairs, phase, rank, r)
    ensures Sweeping(pairs, start, rank, r, 0, phase, false)
  {
    hide LeastSoFar;
  }

  /** One comparison, with its assignment. */
  lemma SweepStep(pairs: seq<(string, string)>, start: Phases, rank: map<string, nat>, r: nat, i: nat, phase: Phases,
                  changed: bool)
    requires i < |pairs| && Sweeping(pairs, start, rank, r, i, phase, changed)
    requires pairs[i].0 in phase && pairs[i].1 in phase
    ensures var (d, a) := pairs[i];
            if phase[a] <= phase[d] then Sweeping(pairs, start, rank, r, i + 1, phase[a := phase[d] + 1], true)
            else Sweeping(pairs, start, rank, r, i + 1, phase, changed)
  {
    var (d, a) := pairs[i];
    assert pairs[i] in pairs;
    assert pairs[..i + 1] == pairs[..i] + [pairs[i]];
    if phase[a] <= phase[d] {
      var next := phase[a := phase[d] + 1];
      assert next.Keys == phase.Keys;
      RaiseLeast(pairs, start, phase, i);
      hide LeastSoFar;
      if Climbs(Elements(pairs), phase.Keys, rank) {
        assert !Above(phase, pairs[i]);
        assert rank[a] >= r;
        forall e <- pairs | e.0 in next && e.1 in next && Above(phase, e) && rank[e.1] <= r ensures Above(next, e) {
          assert e in Elements(pairs);
        }
        assert pairs[i] in Elements(pairs);
        assert Above(next, pairs[i]);
      }
    }
  }

  /** Raising a phase only as far as one prerequisite demands keeps it below every solution. */
  lemma RaiseLeast(pairs: seq<(string, string)>, start: Phases, phase: Phases, i: nat)
    requires LeastSoFar(pairs, start, phase) && i < |pairs| && pairs[i].0 in phase && pairs[i].1 in phase
    requires phase[pairs[i].1] <= phase[pairs[i].0]
    ensures LeastSoFar(pairs, start, phase[pairs[i].1 := phase[pairs[i].0] + 1])
  {
    var next := phase[pairs[i].1 := phase[pairs[i].0] + 1];
    assert next.Keys == phase.Keys;
    forall q: Phases | AtMost(start, q) && Rises(pairs, q) ensures AtMost(next, q) {
      assert AtMost(phase, q);
      assert pairs[i] in pairs;
    }
  }

  /** At the end of a round: either everything rises, or one more number is settled. */
  lemma SweepEnd(pairs: seq<(string, string)>, start: Phases, rank: map<string, nat>, r: nat, phase: Phases,
                 changed: bool)
    requires Sweeping(pairs, start, rank, r, |pairs|, phase, changed)
    ensures LeastSoFar(pairs, start, phase) && Known(pairs, start)
    ensures !changed ==> Rises(pairs, phase)
    ensures SettledBelow(pairs, phase, rank, r + 1)
    ensures changed && Climbs(Elements(pairs), start.Keys, rank) ==> r < |start.Keys|
  {
    assert pairs[..|pairs|] == pairs;
  }

  lemma RisesAcyclic(pairs: seq<(string, string)>, phase: Phases)
    requires Rises(pairs, phase)
    ensures Acyclic(Elements(pairs))
  {
    RankedAcyclic(Elements(pairs), phase);
  }

  /**
   `pairs` lists (prerequisite, assignment) in the order in which the nested loops meet them. The phases
   end up as the least ones at or above the start that rise along every dependency, if there are any,
   which is so exactly when the dependencies form no cycle; an unknown assignment raises.
   */
  method SettlePhases(pairs: seq<(string, string)>, start: Phases) returns (phase: Option<Phases>)
    ensures phase.None? <==> !Known(pairs, start)
    ensures phase.Some? ==> LeastSoFar(pairs, start, phase.value)
    ensures phase.Some? ==> (Rises(pairs, phase.value) <==> Acyclic(Elements(pairs)))
  {
    hide Sweeping, LeastSoFar, SettledBelow, Rises, Acyclic, Climbs;
    ghost var rank: map<string, nat> := map[];
    if Acyclic(Elements(pairs)) {
      rank := Numbering(Elements(pairs), start.Keys);
    }
    var now := start;
    StartLeast(pairs, start, rank);
    for round := 0 to |start| + 1
      invariant LeastSoFar(pairs, start, now) && now.Keys == start.Keys
      invariant SettledBelow(pairs, now, rank, round)
      invariant round > 0 ==> Known(pairs, start)
      invariant Climbs(Elements(pairs), start.Keys, rank) ==> round <= |start.Keys|
    {
      var changed := false;
      SweepStart(pairs, start, rank, round, now);
      for i := 0 to |pairs|
        invariant now.Keys == start.Keys && Sweeping(pairs, start, rank, round, i, now, changed)
      {
        var (d, a) := pairs[i];
        if d !in now || a !in now {
          assert pairs[i] in pairs;
          return None;
        }
        SweepStep(pairs, start, rank, round, i, now, changed);
        if now[a] <= now[d] {
          now := now[a := now[d] + 1];
          changed := true;
        }
      }
      SweepEnd(pairs, start, rank, round, now, changed);
      if !changed {
        RisesAcyclic(pairs, now);
        return Some(now);
      }
    }
    phase := Some(now);
    if Rises(pairs, now) {
      RisesAcyclic(pairs, now);
    }
  }

  lemma StartLeast(pairs: seq<(string, string)>, start: Phases, rank: map<string, nat>)
    ensures LeastSoFar(pairs, start, start) && SettledBelow(pairs, start, rank, 0)
  {
  }

  // ---------------------------------------------------------------- the milestones of a bound mission

  /** One milestone for every phase, in increasing order, after those that are there already. */
  function BindMilestones(was: seq<Milestone>, phases: seq<nat>, name: nat -> string): seq<Milestone> {
    was + seq(|phases|, i requires 0 <= i < |phases| => Milestone(name(phases[i]), phases[i], false))
  }

  /** Different phases have different names. */
  ghost predicate Injective(name: nat -> string) {
    forall i: nat, j: nat | name(i) == name(j) :: i == j
  }

  /** What binding leaves: the mission's assignments lie in the milestones of their phases. */
  ghost predicate Bound(b: Board, m: string, was: seq<Milestone>, phases: seq<nat>, name: nat -> string,
                        phase: Phases)
  {
    && b.milestones == BindMilestones(was, phases, name) && Injective(name)
    && (forall s <- was, p: nat :: s.id != name(p))
    && forall id <- b.w.assignments :: b.w.assignments[id].mission == m ==>
         id in phase && phase[id] in phases && b.w.assignments[id].milestone == name(phase[id])
  }

  lemma BoundPlace(b: Board, m: string, was: seq<Milestone>, phases: seq<nat>, name: nat -> string, phase: Phases,
                   id: string)
    returns (k: nat)
    requires Bound(b, m, was, phases, name, phase) && OfMission(b.w.assignments, m, id)
    ensures k < |b.milestones| && b.milestones[k].id == b.w.assignments[id].milestone && !b.milestones[k].skipped
    ensures forall j | 0 <= j < |b.milestones| && b.milestones[j].id == b.w.assignments[id].milestone ::
              b.milestones[j].order == phase[id]
  {
    var i :| 0 <= i < |phases| && phases[i] == phase[id];
    k := |was| + i;
    var ms := b.milestones;
    assert ms[k] == Milestone(name(phases[i]), phases[i], false);
    assert forall j | 0 <= j < |was| :: ms[j] == was[j] && was[j].id != name(phase[id]);
    forall j | 0 <= j < |ms| && ms[j].id == name(phase[id]) ensures ms[j].order == phase[id] {
      if j >= |was| {
        assert ms[|was| + (j - |was|)] == Milestone(name(phases[j - |was|]), phases[j - |was|], false);
      }
    }
  }

  /** A mission bound to rising phases is orderable. */
  lemma BoundOrderable(b: Board, manifest: Manifest, m: string, was: seq<Milestone>, phases: seq<nat>,
                       name: nat -> string, phase: Phases)
    requires Bound(b, m, was, phases, name, phase) && NeedsWithin(b.w.assignments, manifest, m)
    requires forall e <- NeedEdges(b.w.assignments, manifest, m) :: Above(phase, e)
    ensures Orderable(b, manifest, m)
  {
    hide Needs, Acyclic, Bound;
    var a, edges := b.w.assignments, NeedEdges(b.w.assignments, manifest, m);
    RankedAcyclic(edges, phase);
    forall id <- a | a[id].mission == m ensures Listed(b.milestones, a[id].milestone) {
      var k := BoundPlace(b, m, was, phases, name, phase, id);
    }
    forall d, id | (d, id) in edges && d in a && id in a
      ensures !Inverted(b.milestones, a[d].milestone, a[id].milestone)
    {
      assert Above(phase, (d, id));
      assert OfMission(a, m, d) && OfMission(a, m, id);
      var k := BoundPlace(b, m, was, phases, name, phase, d);
      var j := BoundPlace(b, m, was, phases, name, phase, id);
      assert !Leads(b.milestones, a[id].milestone, k);
    }
  }

  /**
   A mission bound to settled phases can always be finished by dispatching only what `schedule()` answers,
   provided its needs are among the dependencies that the phases were settled for, and these have no cycle.
   */
  lemma BoundFinishes(b: Board, manifest: Manifest, m: string, was: seq<Milestone>, phases: seq<nat>,
                      name: nat -> string, pairs: seq<(string, string)>, phase: Phases)
    returns (turns: seq<Turn>)
    requires Initial(b.w) && m in b.w.missions && NeedsWithin(b.w.assignments, manifest, m)
    requires Bound(b, m, was, phases, name, phase) && NeedEdges(b.w.assignments, manifest, m) <= Elements(pairs)
    requires Rises(pairs, phase)
    ensures Finishes(b, manifest, m, turns) && AllPlain(turns, m)
  {
    hide Orderable, NeedsWithin, Bound, Finishes, AllPlain, NeedEdges, Initial;
    forall e <- NeedEdges(b.w.assignments, manifest, m) ensures Above(phase, e) {
      assert e in Elements(pairs);
    }
    BoundOrderable(b, manifest, m, was, phases, name, phase);
    turns := FinishingRun(b, manifest, m);
  }
}
