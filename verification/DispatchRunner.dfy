/**
 * The background dispatch runner: at most one agent run per version, done-callbacks that may come late and in any
 * order, and a run that drives the orchestrator through bounded chains and always settles.
 */
module DispatchRunner {
  import opened Prelude

  type Id = nat

  // ---------------------------------------------------------------- scheduling

  /** The two callbacks every task carries: `_BG_TASKS.discard` and `_clear_active`. */
  datatype Callback = Discard | ClearActive

  /** A task of the event loop: `due` are its callbacks that have not run yet. */
  datatype Task = Task(version: Id, finished: bool, due: set<Callback>)

  datatype Loop = Loop(tasks: map<Id, Task>, active: map<Id, Id>, background: set<Id>)

  datatype Step =
    | Schedule(version: Id, task: Id)
    | Finish(task: Id)
    | Call(task: Id, callback: Callback)

  predicate Running(s: Loop, task: Id) {
    task in s.tasks && !s.tasks[task].finished
  }

  predicate Busy(s: Loop, version: Id) {
    version in s.active && Running(s, s.active[version])
  }

  /** Task objects are new when created, finish once, and call each of their callbacks once, after finishing. */
  predicate Enabled(s: Loop, step: Step) {
    match step
    case Schedule(_, task) => task !in s.tasks
    case Finish(task) => Running(s, task)
    case Call(task, callback) => task in s.tasks && s.tasks[task].finished && callback in s.tasks[task].due
  }

  function After(s: Loop, step: Step): Loop
    requires Enabled(s, step)
  {
    match step
    case Schedule(version, task) =>
      if Busy(s, version) then s
      else Loop(s.tasks[task := Task(version, false, {Discard, ClearActive})],
                s.active[version := task], s.background + {task})
    case Finish(task) => s.(tasks := s.tasks[task := s.tasks[task].(finished := true)])
    case Call(task, callback) =>
      var t := s.tasks[task];
      var s' := s.(tasks := s.tasks[task := t.(due := t.due - {callback})]);
      if callback == Discard then s'.(background := s.background - {task})
      else if t.version in s.active && s.active[t.version] == task then s'.(active := s.active - {t.version})
      else s'
  }

  ghost predicate Reaches(start: Loop, steps: seq<Step>, end: Loop)
    decreases |steps|
  {
    if steps == [] then start == end
    else Enabled(start, steps[0]) && Reaches(After(start, steps[0]), steps[1..], end)
  }

  ghost predicate Inv(s: Loop) {
    && (forall t :: Running(s, t) ==>
        && s.tasks[t].due == {Discard, ClearActive}
        && s.tasks[t].version in s.active && s.active[s.tasks[t].version] == t)
    && (forall v :: v in s.active ==>
        s.active[v] in s.tasks && s.tasks[s.active[v]].version == v && ClearActive in s.tasks[s.active[v]].due)
    && (forall t :: t in s.background <==> t in s.tasks && Discard in s.tasks[t].due)
  }

  lemma StepKeepsInv(s: Loop, step: Step)
    requires Inv(s) && Enabled(s, step)
    ensures Inv(After(s, step))
  {
    match step {
      case Schedule(version, task) =>
        if !Busy(s, version) {
          assert forall t :: Running(s, t) ==> s.tasks[t].version != version;
        }
      case Finish(task) =>
      case Call(task, callback) =>
    }
  }

  /** In every order of scheduling, finishing and late callbacks: the bookkeeping stays exact. */
  lemma {:induction false} RunKeepsInv(start: Loop, steps: seq<Step>, end: Loop)
    requires Inv(start) && Reaches(start, steps, end)
    ensures Inv(end)
    decreases |steps|
  {
    if steps != [] {
      StepKeepsInv(start, steps[0]);
      RunKeepsInv(After(start, steps[0]), steps[1..], end);
    }
  }

  /**
   * From an idle loop, after any run: no two unfinished tasks share a version, the unfinished one is the one on
   * record, and once every task has finished and called back nothing is left behind.
   */
  lemma SingleFlight(steps: seq<Step>, s: Loop)
    requires Reaches(Loop(map[], map[], {}), steps, s)
    ensures forall a, b :: Running(s, a) && Running(s, b) && s.tasks[a].version == s.tasks[b].version ==> a == b
    ensures forall t :: Running(s, t) ==> Busy(s, s.tasks[t].version) && s.active[s.tasks[t].version] == t
    ensures forall t :: Running(s, t) ==> t in s.background
    ensures (forall t :: t in s.tasks ==> s.tasks[t].due == {}) ==> s.active == map[] && s.background == {}
  {
    RunKeepsInv(Loop(map[], map[], {}), steps, s);
  }

  /** A callback of an older task, however late, leaves a newer task's entry alone and frees no busy version. */
  lemma LateCallback(s: Loop, task: Id, callback: Callback, version: Id)
    requires Inv(s) && Enabled(s, Call(task, callback)) && version in s.active && s.active[version] != task
    ensures var s' := After(s, Call(task, callback));
      version in s'.active && s'.active[version] == s.active[version] && (Busy(s', version) <==> Busy(s, version))
  {
  }

  /** `_ACTIVE_DISPATCH` and `_BG_TASKS`, with the tasks of the event loop they refer to. */
  class Scheduler {
    var tasks: map<Id, Task>
    var active: map<Id, Id>
    var background: set<Id>

    function View(): Loop
      reads this
    {
      Loop(tasks, active, background)
    }

    constructor ()
      ensures View() == Loop(map[], map[], {}) && Inv(View())
    {
      tasks, active, background := map[], map[], {};
    }

    method ScheduleDispatch(version: Id, task: Id) returns (started: bool)
      requires Inv(View()) && task !in tasks
      modifies this
      ensures Inv(View()) && View() == After(old(View()), Schedule(version, task))
      ensures started <==> !exists t :: t in old(tasks) && !old(tasks[t].finished) && old(tasks[t].version) == version
    {
      StepKeepsInv(View(), Schedule(version, task));
      if version in active && !tasks[active[version]].finished {
        assert active[version] in tasks;
        return false;
      }
      assert forall t :: Running(View(), t) ==> tasks[t].version != version;
      tasks := tasks[task := Task(version, false, {Discard, ClearActive})];
      active := active[version := task];
      background := background + {task};
      started := true;
    }

    method ClearActiveOf(task: Id)
      requires Inv(View()) && Enabled(View(), Call(task, ClearActive))
      modifies this
      ensures Inv(View()) && View() == After(old(View()), Call(task, ClearActive))
    {
      StepKeepsInv(View(), Call(task, ClearActive));
      var t := tasks[task];
      tasks := tasks[task := t.(due := t.due - {ClearActive})];
      if t.version in active && active[t.version] == task {
        active := active - {t.version};
      }
    }
  }

  // ---------------------------------------------------------------- one run

  const MAX_RELAY_DRAIN: nat := 20

  datatype Status = AgentWorking | AwaitingManazer | Blocked | Paused | Finished

  /** The `PipelineState` row, as far as the runner reads or writes it. */
  datatype Row = Row(
    stage: string, mode: Option<string>, status: Status,
    blockReason: Option<string>, inFlight: bool, baseline: Option<string>)

  /** An orchestrator call, named by its place in the run. */
  datatype Turn = Consult | Converse | Dispatch | Chained | Drained

  /** How an orchestrator call ends: by raising, by returning `None`, or by returning the state row. */
  datatype Reply = Raises | Nothing | State

  datatype Outcome = Outcome(row: Option<Row>, reply: Reply)

  /** Everything the run cannot control, by ordinal: calls, broadcasts, queue checks, chain limits; `None` raises. */
  datatype World = World(
    call: nat -> Outcome,
    broadcastRaises: nat -> bool,
    pendingRelay: nat -> Option<bool>,
    chainLimit: nat -> Option<nat>)

  /** The first call: a finished version is consulted, a conversation talks unless it is building. */
  function Route(pre: Option<Row>): Turn {
    if pre.Some? && pre.value.stage == "done" then Consult
    else if pre.Some? && pre.value.mode == Some("conversation") && pre.value.stage != "programovanie" then Converse
    else Dispatch
  }

  function Drains(turns: seq<Turn>): nat {
    if turns == [] then 0
    else Drains(turns[..|turns| - 1]) + (if turns[|turns| - 1] == Drained then 1 else 0)
  }

  /** How many chained dispatches the turns end with. */
  function Tail(turns: seq<Turn>): nat {
    if turns == [] || turns[|turns| - 1] != Chained then 0 else 1 + Tail(turns[..|turns| - 1])
  }

  /** No chain ever exceeds `bound` dispatches. */
  predicate ChainsWithin(turns: seq<Turn>, bound: nat) {
    forall n :: 0 <= n <= |turns| ==> Tail(turns[..n]) <= bound
  }

  /** After the first call there are only chained dispatches and drained relays. */
  predicate OnlyFollowUps(turns: seq<Turn>) {
    forall i :: 0 < i < |turns| ==> turns[i] == Chained || turns[i] == Drained
  }

  lemma TurnsSnoc(turns: seq<Turn>, turn: Turn, bound: nat)
    requires ChainsWithin(turns, bound)
    ensures Drains(turns + [turn]) == Drains(turns) + (if turn == Drained then 1 else 0)
    ensures Tail(turns + [turn]) == if turn == Chained then 1 + Tail(turns) else 0
    ensures Tail(turns + [turn]) <= bound ==> ChainsWithin(turns + [turn], bound)
  {
    var longer := turns + [turn];
    assert longer[..|turns|] == turns;
    forall n | 0 <= n <= |longer| && Tail(longer) <= bound ensures Tail(longer[..n]) <= bound {
      if n <= |turns| {
        assert longer[..n] == turns[..n];
      } else {
        assert longer[..n] == longer;
      }
    }
  }

  /** The first turn, then only follow-ups, in bounded chains and at most twenty drained relays. */
  predicate WellShaped(turns: seq<Turn>, first: Turn, bound: nat) {
    && turns != [] && turns[0] == first
    && OnlyFollowUps(turns)
    && ChainsWithin(turns, bound)
    && Drains(turns) <= MAX_RELAY_DRAIN
  }

  lemma FirstTurn(first: Turn, bound: nat)
    requires first != Chained && first != Drained
    ensures WellShaped([first], first, bound) && Tail([first]) == 0 && Drains([first]) == 0
  {
    assert [first][..0] == [];
    assert [first][..1] == [first];
  }

  lemma NextTurn(turns: seq<Turn>, first: Turn, turn: Turn, bound: nat)
    requires WellShaped(turns, first, bound)
    requires (turn == Chained && Tail(turns) < bound) || (turn == Drained && Drains(turns) < MAX_RELAY_DRAIN)
    ensures WellShaped(turns + [turn], first, bound)
    ensures Tail(turns + [turn]) == if turn == Chained then 1 + Tail(turns) else 0
    ensures Drains(turns + [turn]) == Drains(turns) + (if turn == Drained then 1 else 0)
  {
    TurnsSnoc(turns, turn, bound);
  }

  /** What the status listeners leave of a row that settles to `blocked`, with its own reason. */
  function MarkedBlocked(row: Option<Row>): Option<Row> {
    if row.None? then None
    else
      var r := row.value;
      var settled := if r.status == Blocked then r else r.(status := Blocked, inFlight := false, baseline := None);
      Some(settled.(blockReason := Some("system_error")))
  }

  /** The row at rest: no dispatch in flight, no baseline. */
  predicate FlagsCleared(row: Option<Row>) {
    row.Some? ==> !row.value.inFlight && row.value.baseline.None?
  }

  /** One execution of `_run` against a world. */
  class DispatchRun {
    const world: World
    ghost const bound: nat
    var row: Option<Row>
    var turns: seq<Turn>
    var broadcasts: nat
    var checks: nat
    var limits: nat

    constructor (world: World, row: Option<Row>, ghost bound: nat)
      ensures this.world == world && this.bound == bound && this.row == row
      ensures turns == [] && broadcasts == 0 && checks == 0 && limits == 0
    {
      this.world, this.bound, this.row := world, bound, row;
      turns, broadcasts, checks, limits := [], 0, 0, 0;
    }

    /** The backstop the orchestrator hands out never exceeds `bound`. */
    ghost predicate Bounded()
    {
      forall n :: world.chainLimit(n).Some? ==> world.chainLimit(n).value <= bound
    }

    ghost predicate Shaped(first: Turn)
      reads this
    {
      WellShaped(turns, first, bound)
    }

    /** The last chain ran as long as its backstop allowed. */
    ghost predicate ChainSpent()
      reads this
    {
      limits > 0 && world.chainLimit(limits - 1) == Some(Tail(turns))
    }

    /** The relay queue was found empty, or as many relays as one run may drain were drained. */
    ghost predicate RelaysDone()
      reads this
    {
      Drains(turns) == MAX_RELAY_DRAIN || (checks > 0 && world.pendingRelay(checks - 1) == Some(false))
    }

    method Broadcast() returns (raised: bool)
      modifies this`broadcasts
    {
      raised := world.broadcastRaises(broadcasts);
      broadcasts := broadcasts + 1;
    }

    /** One orchestrator call; reading the state of a row that is gone raises. */
    method Invoke(turn: Turn) returns (reply: Reply)
      modifies this`row, this`turns
      ensures turns == old(turns) + [turn] && row == world.call(|old(turns)|).row
      ensures reply == State ==> row.Some?
      ensures reply == Nothing ==> world.call(|turns| - 1).reply == Nothing
    {
      var outcome := world.call(|turns|);
      row := outcome.row;
      turns := turns + [turn];
      reply := if outcome.reply == State && row.None? then Raises else outcome.reply;
    }

    /** The auto-chain loop, as it stands behind the first call and behind every drained relay. */
    method AutoChain(first: Turn) returns (reply: Reply)
      requires Bounded() && Shaped(first) && Tail(turns) == 0 && row.Some?
      modifies this`row, this`turns, this`broadcasts, this`limits
      ensures Shaped(first) && Drains(turns) == old(Drains(turns))
      ensures reply == State ==> row.Some? && (row.value.status == AgentWorking ==> ChainSpent())
      ensures reply == Nothing ==> world.call(|turns| - 1).reply == Nothing
    {
      reply := State;
      var guard := 0;
      var chainLimit := 0;
      if row.value.status == AgentWorking {
        var limit := world.chainLimit(limits);
        limits := limits + 1;
        if limit.None? {
          return Raises;
        }
        chainLimit := limit.value;
      }
      while reply == State && row.value.status == AgentWorking && guard < chainLimit
        invariant Shaped(first) && Drains(turns) == old(Drains(turns))
        invariant reply == State ==> row.Some? && Tail(turns) == guard
        invariant reply == Nothing ==> world.call(|turns| - 1).reply == Nothing
        invariant guard <= chainLimit <= bound
        invariant reply == State && row.value.status == AgentWorking ==>
          limits > 0 && world.chainLimit(limits - 1) == Some(chainLimit)
        decreases chainLimit - guard
      {
        guard := guard + 1;
        var raised := Broadcast();
        if raised {
          return Raises;
        }
        NextTurn(turns, first, Chained, bound);
        reply := Invoke(Chained);
      }
    }

    /** The routed call with its chain, or one drained relay with its chain. */
    method TurnThenChain(first: Turn, turn: Turn) returns (reply: Reply)
      requires Bounded()
      requires
        || (turns == [] && turn == first && first in [Consult, Converse, Dispatch])
        || (Shaped(first) && turn == Drained && Drains(turns) < MAX_RELAY_DRAIN)
      modifies this`row, this`turns, this`broadcasts, this`limits
      ensures Shaped(first) && Drains(turns) == old(Drains(turns)) + (if turn == Drained then 1 else 0)
      ensures reply == State ==> row.Some? && (row.value.status == AgentWorking ==> ChainSpent())
      ensures reply == Nothing ==> world.call(|turns| - 1).reply == Nothing
    {
      if turns == [] {
        FirstTurn(first, bound);
        assert turns + [turn] == [first];
      } else {
        NextTurn(turns, first, turn, bound);
      }
      reply := Invoke(turn);
      if reply == State {
        reply := AutoChain(first);
      }
    }

    /** Everything inside the inner `try` of `_run`: the routed call, then the relay drain. */
    method Drive(first: Turn) returns (reply: Reply)
      requires Bounded() && turns == [] && first in [Consult, Converse, Dispatch]
      modifies this`row, this`turns, this`broadcasts, this`limits, this`checks
      ensures Shaped(first)
      ensures reply == State ==> row.Some? && RelaysDone() && (row.value.status == AgentWorking ==> ChainSpent())
      ensures reply == Nothing ==> world.call(|turns| - 1).reply == Nothing
    {
      reply := TurnThenChain(first, first);
      var relayGuard := 0;
      while reply == State
        invariant Shaped(first) && Drains(turns) == relayGuard
        invariant reply == State ==> row.Some? && (row.value.status == AgentWorking ==> ChainSpent())
        invariant reply == Nothing ==> world.call(|turns| - 1).reply == Nothing
        decreases MAX_RELAY_DRAIN - relayGuard
      {
        var pending := world.pendingRelay(checks);
        checks := checks + 1;
        if pending.None? {
          return Raises;
        }
        if !pending.value || relayGuard >= MAX_RELAY_DRAIN {
          return;
        }
        relayGuard := relayGuard + 1;
        var raised := Broadcast();
        if raised {
          return Raises;
        }
        reply := TurnThenChain(first, Drained);
      }
    }

    method MarkBlocked()
      modifies this`row
      ensures row == MarkedBlocked(old(row))
      ensures row.Some? <==> old(row).Some?
      ensures row.Some? ==>
        && row.value.status == Blocked && row.value.blockReason == Some("system_error")
        && row.value.stage == old(row).value.stage && row.value.mode == old(row).value.mode
      ensures row.Some? && old(row).value.status != Blocked ==> !row.value.inFlight && row.value.baseline == None
      ensures row.Some? && old(row).value.status == Blocked ==>
        row.value.inFlight == old(row).value.inFlight && row.value.baseline == old(row).value.baseline
    {
      if row.None? {
        return;
      }
      if row.value.status != Blocked {
        row := Some(row.value.(status := Blocked, inFlight := false, baseline := None));
      }
      row := Some(row.value.(blockReason := Some("system_error")));
    }

    method ClearDispatchFlags()
      modifies this`row
      ensures FlagsCleared(row)
      ensures row == if old(row).Some? then Some(old(row).value.(inFlight := false, baseline := None)) else None
    {
      if row.None? || (!row.value.inFlight && row.value.baseline.None?) {
        return;
      }
      row := Some(row.value.(inFlight := false));
      row := Some(row.value.(baseline := None));
    }

    /**
     * `_run`. Whatever the orchestrator, the broadcasts and the relay queue do, it makes at most 1 + bound +
     * 20 * (1 + bound) calls, in the order the source prescribes, and leaves no dispatch flag behind.
     */
    method Run() returns (ending: Ending, escaped: bool)
      requires Bounded() && turns == []
      modifies this
      ensures Shaped(Route(old(row)))
      ensures old(row).Some? && old(row).value.stage == "done" ==> turns[0] == Consult
      ensures old(row).Some? && old(row).value.stage !in ["done", "programovanie"] ==>
        turns[0] == if old(row).value.mode == Some("conversation") then Converse else Dispatch
      ensures old(row).Some? && old(row).value.stage == "programovanie" ==> turns[0] == Dispatch
      ensures old(row).None? ==> turns[0] == Dispatch
      ensures forall i :: 0 < i < |turns| ==> turns[i] == Chained || turns[i] == Drained
      ensures |turns| <= 1 + bound + MAX_RELAY_DRAIN * (1 + bound)
      ensures FlagsCleared(row)
      ensures ending == Crashed ==>
        row.Some? ==> row.value.status == Blocked && row.value.blockReason == Some("system_error")
      ensures ending == Settled ==> row.Some? && row.value.status != AgentWorking && RelaysDone()
      ensures ending == ChainExhausted ==> row.Some? && row.value.status == AgentWorking && ChainSpent() && RelaysDone()
      ensures ending == Vanished ==> world.call(|turns| - 1).reply == Nothing
    {
      var reply := Drive(Route(row));
      TurnCount(turns, bound);
      escaped := false;
      if reply == Nothing {
        ending := Vanished;
      } else if reply == Raises {
        ending := Crashed;
        MarkBlocked();
        if row.Some? {
          escaped := Broadcast();
        }
      } else if row.value.status == AgentWorking {
        ending := ChainExhausted;
      } else {
        ending := Settled;
      }
      if ending != Vanished && row.Some? && !escaped {
        escaped := Broadcast();
      }
      ClearDispatchFlags();
    }
  }

  /** How a run can end. */
  datatype Ending = Vanished | Settled | ChainExhausted | Crashed

  /** The calls that so many drained relays may cost, each with its chain. */
  function Budget(drains: nat, bound: nat): nat {
    if drains == 0 then 0 else Budget(drains - 1, bound) + (1 + bound)
  }

  lemma {:induction false} BudgetIsProduct(drains: nat, bound: nat)
    ensures Budget(drains, bound) == drains * (1 + bound)
  {
    if drains > 0 {
      BudgetIsProduct(drains - 1, bound);
      assert drains * (1 + bound) == (drains - 1) * (1 + bound) + (1 + bound);
    }
  }

  lemma {:induction false} BudgetGrows(few: nat, many: nat, bound: nat)
    requires few <= many
    ensures Budget(few, bound) <= Budget(many, bound)
    decreases many
  {
    if few < many {
      BudgetGrows(few, many - 1, bound);
    }
  }

  /** Every turn is the first, in the last chain, or paid for by a drained relay before it. */
  lemma {:induction false} TurnsPaid(turns: seq<Turn>, bound: nat)
    requires turns != [] && turns[0] != Chained && turns[0] != Drained
    requires OnlyFollowUps(turns) && ChainsWithin(turns, bound)
    ensures |turns| <= 1 + Tail(turns) + Budget(Drains(turns), bound)
  {
    var n := |turns| - 1;
    if n > 0 {
      var front := turns[..n];
      ChainsPrefix(turns, n, bound);
      TurnsPaid(front, bound);
    }
  }

  lemma ChainsPrefix(turns: seq<Turn>, n: nat, bound: nat)
    requires ChainsWithin(turns, bound) && n <= |turns|
    ensures ChainsWithin(turns[..n], bound) && Tail(turns[..n]) <= bound
  {
    forall k | 0 <= k <= n ensures Tail(turns[..n][..k]) <= bound {
      assert turns[..n][..k] == turns[..k];
    }
  }

  /** A run of bounded chains and bounded drains has a bounded number of calls. */
  lemma TurnCount(turns: seq<Turn>, bound: nat)
    requires turns != [] && turns[0] != Chained && turns[0] != Drained
    requires OnlyFollowUps(turns) && ChainsWithin(turns, bound) && Drains(turns) <= MAX_RELAY_DRAIN
    ensures |turns| <= 1 + bound + MAX_RELAY_DRAIN * (1 + bound)
  {
    TurnsPaid(turns, bound);
    BudgetGrows(Drains(turns), MAX_RELAY_DRAIN, bound);
    BudgetIsProduct(MAX_RELAY_DRAIN, bound);
    ChainsPrefix(turns, |turns|, bound);
    assert turns[..|turns|] == turns;
  }
}
