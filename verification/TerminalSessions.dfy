/**
 * Lifecycle of agent terminal sessions: the audit rows in the database, the registry of live runtimes, the PTY
 * processes and the tasks that end them, across any number of backend restarts.
 *
 * Each step is a stretch of code without a suspension point. Processes may exit at any moment, the reader task may
 * notice late, and an `end_session` in its grace period may be overtaken by anything else.
 */
module TerminalSessions {
  import opened Prelude

  type Sid = nat
  type Pid = nat
  type Task = nat

  datatype Ending = Idle | User | Crash | ServerRestart

  /** A row of `agent_terminal_sessions`; `claude` is absent on rows older than resumable sessions. */
  datatype Row = Row(user: nat, role: string, claude: Option<nat>, pid: Pid, ended: Option<Ending>)

  /** A process of session `sid`; also what a reader task or an ending task holds on to. */
  datatype Runtime = Runtime(sid: Sid, pid: Pid)

  datatype State = State(
    rows: map<Sid, Row>,
    sessions: map<Sid, Runtime>,
    alive: set<Runtime>,
    readers: set<Runtime>,
    enders: map<Task, Runtime>,
    usedPids: set<Pid>)

  datatype Error = InvalidSpec | SessionConflict | SessionNotFound | CannotResume

  datatype Step =
    | Spawn(user: nat, role: string, claude: nat, sid: Sid, pid: Pid)
    | Attach(sid: Sid, pid: Pid)
    | Exit(process: Runtime)
    | ReaderDone(reader: Runtime, cause: Ending)
    | EndStart(sid: Sid, cause: Ending, task: Task)
    | EndFinish(task: Task, cause: Ending, killed: bool)
    | Restart

  predicate Open(rows: map<Sid, Row>, sid: Sid) {
    sid in rows && rows[sid].ended.None?
  }

  predicate Taken(rows: map<Sid, Row>, user: nat, role: string) {
    exists s :: s in rows && Open(rows, s) && rows[s].user == user && rows[s].role == role
  }

  /** `_finalize_db_row`: only an open row is ended, so the first ending stands. */
  function Finalize(rows: map<Sid, Row>, sid: Sid, cause: Ending): map<Sid, Row> {
    if Open(rows, sid) then rows[sid := rows[sid].(ended := Some(cause))] else rows
  }

  /** `_cleanup_after_exit`: finalize the row and drop the registry entry, in one turn. */
  function Cleanup(s: State, sid: Sid, cause: Ending): State {
    s.(rows := Finalize(s.rows, sid, cause), sessions := s.sessions - {sid})
  }

  /** Register a fresh process under `sid`. */
  function Launched(s: State, sid: Sid, pid: Pid): State {
    var r := Runtime(sid, pid);
    s.(sessions := s.sessions[sid := r], alive := s.alive + {r}, readers := s.readers + {r},
       usedPids := s.usedPids + {pid})
  }

  function SpawnResult(s: State, user: nat, role: string, claude: nat, sid: Sid, pid: Pid): Result<State, Error> {
    if Taken(s.rows, user, role) then Err(SessionConflict)
    else Ok(Launched(s.(rows := s.rows[sid := Row(user, role, Some(claude), pid, None)]), sid, pid))
  }

  function AttachResult(s: State, sid: Sid, pid: Pid): Result<State, Error> {
    if sid in s.sessions then Ok(s)
    else if !Open(s.rows, sid) then Err(SessionNotFound)
    else if s.rows[sid].claude.None? then Err(CannotResume)
    else Ok(Launched(s.(rows := s.rows[sid := s.rows[sid].(pid := pid)]), sid, pid))
  }

  /** `mark_orphaned_on_startup`: open rows that cannot be resumed are ended. */
  function MarkOrphaned(rows: map<Sid, Row>): map<Sid, Row> {
    map sid | sid in rows ::
      if rows[sid].ended.None? && rows[sid].claude.None? then rows[sid].(ended := Some(ServerRestart)) else rows[sid]
  }

  function OrElse(r: Result<State, Error>, s: State): State {
    if r.Ok? then r.value else s
  }

  /** An ending task is over; a process still alive then was sent SIGKILL, which is `killed` unless that failed. */
  function LetGo(s: State, task: Task, killed: bool): State
    requires task in s.enders
  {
    s.(enders := s.enders - {task}, alive := if killed then s.alive - {s.enders[task]} else s.alive)
  }

  /** New identifiers are new, and tasks act on what they hold. */
  predicate Enabled(s: State, step: Step) {
    match step
    case Spawn(_, _, _, sid, pid) => sid !in s.rows && pid !in s.usedPids
    case Attach(_, pid) => pid !in s.usedPids
    case Exit(process) => process in s.alive
    case ReaderDone(reader, _) => reader in s.readers
    case EndStart(_, _, task) => task !in s.enders
    case EndFinish(task, _, _) => task in s.enders
    case Restart => true
  }

  function After(s: State, step: Step): State
    requires Enabled(s, step)
  {
    match step
    case Spawn(user, role, claude, sid, pid) => OrElse(SpawnResult(s, user, role, claude, sid, pid), s)
    case Attach(sid, pid) => OrElse(AttachResult(s, sid, pid), s)
    case Exit(process) => s.(alive := s.alive - {process})
    case ReaderDone(reader, cause) => Cleanup(s.(readers := s.readers - {reader}), reader.sid, cause)
    case EndStart(sid, cause, task) =>
      if sid in s.sessions then s.(enders := s.enders[task := s.sessions[sid]])
      else s.(rows := Finalize(s.rows, sid, cause))
    case EndFinish(task, cause, killed) => Cleanup(LetGo(s, task, killed), s.enders[task].sid, cause)
    case Restart => State(MarkOrphaned(s.rows), map[], {}, {}, map[], s.usedPids)
  }

  ghost predicate Reaches(start: State, steps: seq<Step>, end: State)
    decreases |steps|
  {
    if steps == [] then start == end
    else Enabled(start, steps[0]) && Reaches(After(start, steps[0]), steps[1..], end)
  }

  /** The backend has just started on a database in which the partial unique index holds. */
  ghost predicate Booted(s: State) {
    && s.sessions == map[] && s.alive == {} && s.readers == {} && s.enders == map[]
    && OneOpenPerRole(s.rows)
    && (forall sid :: Open(s.rows, sid) ==> s.rows[sid].claude.Some?)
  }

  // ---------------------------------------------------------------- the invariant

  ghost predicate OneOpenPerRole(rows: map<Sid, Row>) {
    forall a, b :: Open(rows, a) && Open(rows, b) && rows[a].user == rows[b].user && rows[a].role == rows[b].role
      ==> a == b
  }

  predicate OneProcessPerSession(s: State) {
    forall p, q :: p in s.alive && q in s.alive && p.sid == q.sid ==> p == q
  }

  /** A registered runtime belongs to an open, resumable row, which records its process. */
  predicate RegisteredIsOpen(s: State) {
    forall sid :: sid in s.sessions ==>
      && Open(s.rows, sid) && s.rows[sid].claude.Some?
      && s.sessions[sid].sid == sid && s.sessions[sid].pid == s.rows[sid].pid
  }

  /** A runtime that runs, is read, or is being ended. */
  predicate Held(s: State, r: Runtime) {
    r in s.alive || r in s.readers || r in s.enders.Values
  }

  /** Process, reader and ending tasks of a session all belong to one runtime. */
  ghost predicate OneRuntimePerSession(s: State) {
    forall p, q :: Held(s, p) && Held(s, q) && p.sid == q.sid ==> p == q
  }

  /** Whatever still acts for an open session acts for the runtime registered now, never for an older one. */
  predicate Current(s: State, r: Runtime) {
    r.sid in s.rows && (Open(s.rows, r.sid) ==> r.sid in s.sessions && s.sessions[r.sid] == r)
  }

  ghost predicate Inv(s: State) {
    && OneOpenPerRole(s.rows)
    && RegisteredIsOpen(s)
    && (forall sid :: Open(s.rows, sid) ==> s.rows[sid].claude.Some?)
    && (forall r :: Held(s, r) ==> Current(s, r))
    && OneRuntimePerSession(s)
  }

  lemma CleanupKeepsInv(s: State, sid: Sid, cause: Ending)
    requires Inv(s) && sid in s.rows
    ensures Inv(Cleanup(s, sid, cause))
  {
    var s' := Cleanup(s, sid, cause);
    assert forall x :: Open(s'.rows, x) <==> Open(s.rows, x) && x != sid;
    assert forall r :: Current(s, r) ==> Current(s', r);
  }

  lemma LaunchKeepsInv(s: State, sid: Sid, pid: Pid)
    requires Inv(s.(rows := s.rows - {sid})) && sid !in s.sessions
    requires Open(s.rows, sid) && s.rows[sid].claude.Some? && s.rows[sid].pid == pid && OneOpenPerRole(s.rows)
    ensures Inv(Launched(s, sid, pid))
  {
    var quiet, s' := s.(rows := s.rows - {sid}), Launched(s, sid, pid);
    LaunchHolds(s, sid, pid);
    forall r | Held(s', r) ensures Current(s', r) {
      if r != Runtime(sid, pid) {
        assert Held(quiet, r);
        LaunchKeepsCurrent(s, sid, pid, r);
      }
    }
    forall p, q | Held(s', p) && Held(s', q) && p.sid == q.sid ensures p == q {
      assert Held(quiet, p) ==> Current(quiet, p);
      assert Held(quiet, q) ==> Current(quiet, q);
    }
    assert forall x :: x != sid ==> Open(quiet.rows, x) == Open(s.rows, x);
  }

  lemma LaunchHolds(s: State, sid: Sid, pid: Pid)
    ensures forall r ::
      Held(Launched(s, sid, pid), r) <==> r == Runtime(sid, pid) || Held(s.(rows := s.rows - {sid}), r)
  {
  }

  lemma LaunchKeepsCurrent(s: State, sid: Sid, pid: Pid, r: Runtime)
    requires Current(s.(rows := s.rows - {sid}), r)
    ensures Current(Launched(s, sid, pid), r) && r.sid != sid
  {
  }

  /** Forgetting processes, readers or ending tasks keeps the invariant. */
  lemma ForgetKeepsInv(s: State, alive: set<Runtime>, readers: set<Runtime>, enders: map<Task, Runtime>)
    requires Inv(s) && alive <= s.alive && readers <= s.readers
    requires forall t :: t in enders ==> t in s.enders && enders[t] == s.enders[t]
    ensures Inv(s.(alive := alive, readers := readers, enders := enders))
  {
    var s' := s.(alive := alive, readers := readers, enders := enders);
    assert forall r :: Current(s, r) ==> Current(s', r);
  }

  lemma SpawnKeepsInv(s: State, user: nat, role: string, claude: nat, sid: Sid, pid: Pid)
    requires Inv(s) && sid !in s.rows && !Taken(s.rows, user, role)
    ensures Inv(SpawnResult(s, user, role, claude, sid, pid).value)
  {
    var added := s.(rows := s.rows[sid := Row(user, role, Some(claude), pid, None)]);
    assert added.rows - {sid} == s.rows;
    assert forall x :: Open(added.rows, x) <==> Open(s.rows, x) || x == sid;
    LaunchKeepsInv(added, sid, pid);
  }

  lemma EndStartKeepsInv(s: State, sid: Sid, cause: Ending, task: Task)
    requires Inv(s) && task !in s.enders
    ensures Inv(After(s, EndStart(sid, cause, task)))
  {
    if sid in s.sessions {
      var s' := s.(enders := s.enders[task := s.sessions[sid]]);
      assert Current(s, s.sessions[sid]);
      assert forall r :: Current(s, r) ==> Current(s', r);
    } else if sid in s.rows {
      CleanupKeepsInv(s, sid, cause);
      assert s.sessions - {sid} == s.sessions;
    }
  }

  lemma EndFinishKeepsInv(s: State, task: Task, cause: Ending, killed: bool)
    requires Inv(s) && task in s.enders
    ensures Inv(After(s, EndFinish(task, cause, killed)))
  {
    var quiet := LetGo(s, task, killed);
    assert Held(s, s.enders[task]);
    ForgetKeepsInv(s, quiet.alive, quiet.readers, quiet.enders);
    CleanupKeepsInv(quiet, s.enders[task].sid, cause);
  }

  lemma StepKeepsInv(s: State, step: Step)
    requires Inv(s) && Enabled(s, step)
    ensures Inv(After(s, step))
  {
    match step {
      case Spawn(user, role, claude, sid, pid) =>
        if !Taken(s.rows, user, role) {
          SpawnKeepsInv(s, user, role, claude, sid, pid);
        }
      case Attach(sid, pid) =>
        if sid !in s.sessions && Open(s.rows, sid) {
          ResumeKeepsInv(s, sid, pid);
        }
      case Exit(process) =>
        ForgetKeepsInv(s, s.alive - {process}, s.readers, s.enders);
      case ReaderDone(reader, cause) =>
        ForgetKeepsInv(s, s.alive, s.readers - {reader}, s.enders);
        assert Held(s, reader);
        CleanupKeepsInv(s.(readers := s.readers - {reader}), reader.sid, cause);
      case EndStart(sid, cause, task) =>
        EndStartKeepsInv(s, sid, cause, task);
      case EndFinish(task, cause, killed) =>
        EndFinishKeepsInv(s, task, cause, killed);
      case Restart =>
        RestartKeepsInv(s);
    }
  }

  lemma RestartKeepsInv(s: State)
    requires Inv(s)
    ensures Inv(After(s, Restart)) && MarkOrphaned(s.rows) == s.rows
  {
    assert forall x :: x in s.rows && s.rows[x].ended.None? ==> Open(s.rows, x);
  }

  /** An open row without a runtime has no process, reader or ending task left, so it can be given a new process. */
  lemma ResumeKeepsInv(s: State, sid: Sid, pid: Pid)
    requires Inv(s) && sid !in s.sessions && Open(s.rows, sid)
    ensures Inv(Launched(s.(rows := s.rows[sid := s.rows[sid].(pid := pid)]), sid, pid))
  {
    var pidded := s.(rows := s.rows[sid := s.rows[sid].(pid := pid)]);
    var quiet := s.(rows := s.rows - {sid});
    assert pidded.rows - {sid} == quiet.rows;
    assert forall x :: Open(quiet.rows, x) <==> Open(s.rows, x) && x != sid;
    forall r | Current(s, r) ensures Current(quiet, r) {
      assert r.sid != sid;
    }
    LaunchKeepsInv(pidded, sid, pid);
  }

  /** In every run, restarts included: the four statements of the invariant. */
  lemma {:induction false} RunKeepsInv(start: State, steps: seq<Step>, end: State)
    requires Inv(start) && Reaches(start, steps, end)
    ensures Inv(end)
    decreases |steps|
  {
    if steps != [] {
      StepKeepsInv(start, steps[0]);
      RunKeepsInv(After(start, steps[0]), steps[1..], end);
    }
  }

  lemma LifecycleSafe(start: State, steps: seq<Step>, end: State)
    requires Booted(start) && Reaches(start, steps, end)
    ensures OneOpenPerRole(end.rows) && OneProcessPerSession(end) && RegisteredIsOpen(end)
    ensures forall r :: r in end.alive && Open(end.rows, r.sid) ==> r.sid in end.sessions && end.sessions[r.sid] == r
    ensures forall sid :: sid in end.sessions ==> sid in end.rows && end.rows[sid].ended == None
    ensures forall sid :: sid in end.sessions ==> end.rows[sid].pid == end.sessions[sid].pid
    ensures forall a, b ::
      (a in end.rows && b in end.rows && end.rows[a].ended == None && end.rows[b].ended == None
       && end.rows[a].user == end.rows[b].user && end.rows[a].role == end.rows[b].role) ==> a == b
  {
    RunKeepsInv(start, steps, end);
    HeldByOne(end);
  }

  /** What holds of everything held holds of the processes. */
  lemma HeldByOne(s: State)
    requires Inv(s)
    ensures OneProcessPerSession(s) && forall r :: r in s.alive ==> Current(s, r)
  {
    assert forall r :: r in s.alive ==> Held(s, r);
  }

  /** A row keeps the user, the role and the conversation it was spawned with, over every run. */
  lemma {:induction false} RowKeepsIdentity(start: State, steps: seq<Step>, end: State, sid: Sid)
    requires Reaches(start, steps, end) && sid in start.rows
    ensures sid in end.rows
    ensures end.rows[sid].user == start.rows[sid].user && end.rows[sid].role == start.rows[sid].role
    ensures end.rows[sid].claude == start.rows[sid].claude
    decreases |steps|
  {
    if steps != [] {
      RowKeepsIdentity(After(start, steps[0]), steps[1..], end, sid);
    }
  }

  // ---------------------------------------------------------------- endings are final

  predicate Closed(s: State, sid: Sid) {
    sid in s.rows && s.rows[sid].ended.Some?
  }

  /** An ended session keeps its row as it is, is not registered, and gains no process. */
  predicate StaysClosed(s: State, s': State, sid: Sid) {
    && Closed(s, sid) && Closed(s', sid) && s'.rows[sid] == s.rows[sid]
    && sid !in s'.sessions
    && (forall r :: r in s'.alive && r.sid == sid ==> r in s.alive)
  }

  lemma StepStaysClosed(s: State, step: Step, sid: Sid)
    requires Inv(s) && Enabled(s, step) && Closed(s, sid)
    ensures StaysClosed(s, After(s, step), sid)
  {
    assert sid !in s.sessions && !Open(s.rows, sid);
  }

  lemma {:induction false} EndedForever(start: State, steps: seq<Step>, end: State, sid: Sid)
    requires Inv(start) && Reaches(start, steps, end) && Closed(start, sid)
    ensures StaysClosed(start, end, sid)
    decreases |steps|
  {
    if steps != [] {
      var next := After(start, steps[0]);
      StepStaysClosed(start, steps[0], sid);
      StepKeepsInv(start, steps[0]);
      EndedForever(next, steps[1..], end, sid);
    }
  }

  /** An ended session whose process still runs. */
  predicate Lingers(s: State, sid: Sid) {
    Closed(s, sid) && exists r :: r in s.alive && r.sid == sid
  }

  /**
   * The step ends a session and leaves its process: the reader gave up before the process did, or the process outlived
   * the grace period and the signal that should have killed it failed.
   */
  predicate Abandons(s: State, step: Step, sid: Sid) {
    match step
    case ReaderDone(reader, _) => Open(s.rows, sid) && reader.sid == sid && reader in s.alive
    case EndFinish(task, _, killed) =>
      Open(s.rows, sid) && task in s.enders && s.enders[task].sid == sid && !killed && s.enders[task] in s.alive
    case _ => false
  }

  /** The step is the end of any process of the session: it exits, is killed, or dies with the backend. */
  predicate Stops(s: State, step: Step, sid: Sid) {
    match step
    case Exit(process) => process.sid == sid
    case EndFinish(task, _, killed) => task in s.enders && s.enders[task].sid == sid && killed
    case Restart => true
    case _ => false
  }

  lemma HeldSame(s: State, p: Runtime, q: Runtime)
    requires Inv(s) && Held(s, p) && Held(s, q) && p.sid == q.sid
    ensures p == q
  {
  }

  /**
   * Exactly when a process outlives its session: it was left by the step that ended the session, or before, and has
   * not stopped. Ending a session without a runtime never leaves one, nor does an ending whose signal went through.
   */
  lemma StepLingersIff(s: State, step: Step, sid: Sid)
    requires Inv(s) && Enabled(s, step)
    ensures Lingers(After(s, step), sid) <==> (Lingers(s, sid) && !Stops(s, step, sid)) || Abandons(s, step, sid)
  {
    var next := After(s, step);
    forall r | r in s.alive ensures Held(s, r) && Current(s, r) {
      HeldByOne(s);
    }
    match step {
      case Exit(process) =>
        forall r | r in s.alive && r.sid == process.sid ensures r == process {
          HeldSame(s, r, process);
        }
      case ReaderDone(reader, _) =>
        assert Held(s, reader);
        forall r | r in s.alive && r.sid == reader.sid ensures r == reader {
          HeldSame(s, r, reader);
        }
      case EndFinish(task, _, _) =>
        assert Held(s, s.enders[task]);
        forall r | r in s.alive && r.sid == s.enders[task].sid ensures r == s.enders[task] {
          HeldSame(s, r, s.enders[task]);
        }
      case _ =>
    }
  }

  /** Some step of the run leaves a process of the session behind. */
  ghost predicate SomeAbandons(start: State, steps: seq<Step>, sid: Sid)
    decreases |steps|
  {
    steps != [] && Enabled(start, steps[0]) &&
      (Abandons(start, steps[0], sid) || SomeAbandons(After(start, steps[0]), steps[1..], sid))
  }

  /** In every run an ended session has a process only if some step left it behind. */
  lemma {:induction false} LingersOnlyAbandoned(start: State, steps: seq<Step>, end: State, sid: Sid)
    requires Inv(start) && Reaches(start, steps, end) && !Lingers(start, sid) && Lingers(end, sid)
    ensures SomeAbandons(start, steps, sid)
    decreases |steps|
  {
    if steps != [] && !Abandons(start, steps[0], sid) {
      StepLingersIff(start, steps[0], sid);
      StepKeepsInv(start, steps[0]);
      LingersOnlyAbandoned(After(start, steps[0]), steps[1..], end, sid);
    }
  }

  /** After a restart exactly the sessions that were open can be resumed, each under its one new process. */
  lemma RestartThenAttach(s: State, sid: Sid, pid: Pid)
    requires Inv(s)
    ensures var resumed := AttachResult(After(s, Restart), sid, pid);
      && (resumed.Ok? <==> Open(s.rows, sid))
      && (resumed.Ok? ==>
        && resumed.value.alive == {Runtime(sid, pid)} && resumed.value.sessions == map[sid := Runtime(sid, pid)]
        && resumed.value.rows == s.rows[sid := s.rows[sid].(pid := pid)])
  {
    RestartKeepsInv(s);
  }

  // ---------------------------------------------------------------- the service

  /** The module-level registry, the table and the processes, updated in place. */
  class TerminalService {
    var rows: map<Sid, Row>
    var sessions: map<Sid, Runtime>
    var alive: set<Runtime>
    var readers: set<Runtime>
    var enders: map<Task, Runtime>
    var usedPids: set<Pid>

    function View(): State
      reads this
    {
      State(rows, sessions, alive, readers, enders, usedPids)
    }

    /** Startup on an existing table whose partial unique index holds: nothing runs, orphans are finalized. */
    constructor (stored: map<Sid, Row>)
      requires OneOpenPerRole(stored)
      ensures Booted(View()) && rows == MarkOrphaned(stored)
      ensures rows.Keys == stored.Keys
      ensures forall sid :: sid in stored ==>
        rows[sid] ==
          if stored[sid].ended == None && stored[sid].claude == None then stored[sid].(ended := Some(ServerRestart))
          else stored[sid]
    {
      rows := MarkOrphaned(stored);
      sessions, alive, readers, enders, usedPids := map[], {}, {}, map[], {};
      new;
      assert forall x :: Open(rows, x) ==> Open(stored, x);
    }

    method Launch(sid: Sid, pid: Pid)
      modifies this
      ensures View() == Launched(old(View()), sid, pid)
    {
      var r := Runtime(sid, pid);
      sessions := sessions[sid := r];
      alive, readers := alive + {r}, readers + {r};
      usedPids := usedPids + {pid};
    }

    method Spawn(user: nat, role: string, claude: nat, sid: Sid, pid: Pid, specFound: bool)
      returns (r: Result<Row, Error>)
      requires Inv(View()) && Enabled(View(), Step.Spawn(user, role, claude, sid, pid))
      modifies this
      ensures Inv(View())
      ensures r.Ok? <==> specFound && !Taken(old(rows), user, role)
      ensures r.Ok? ==> Ok(View()) == SpawnResult(old(View()), user, role, claude, sid, pid) && r.value == rows[sid]
      ensures r.Err? ==> View() == old(View()) && r.error == if specFound then SessionConflict else InvalidSpec
      ensures r == Err(SessionConflict) ==>
        exists s :: s in rows && rows[s].ended == None && rows[s].user == user && rows[s].role == role
      ensures r.Ok? ==>
        && r.value.user == user && r.value.role == role && r.value.claude == Some(claude)
        && r.value.pid == pid && r.value.ended == None
        && rows == old(rows)[sid := r.value]
      ensures r.Ok? ==>
        && sessions == old(sessions)[sid := Runtime(sid, pid)]
        && alive == old(alive) + {Runtime(sid, pid)} && readers == old(readers) + {Runtime(sid, pid)}
        && enders == old(enders)
    {
      StepKeepsInv(View(), Step.Spawn(user, role, claude, sid, pid));
      if !specFound {
        return Err(InvalidSpec);
      }
      if exists s :: s in rows && Open(rows, s) && rows[s].user == user && rows[s].role == role {
        return Err(SessionConflict);
      }
      rows := rows[sid := Row(user, role, Some(claude), pid, None)];
      Launch(sid, pid);
      r := Ok(rows[sid]);
    }

    method Attach(sid: Sid, pid: Pid, specFound: bool) returns (r: Result<Runtime, Error>)
      requires Inv(View()) && Enabled(View(), Step.Attach(sid, pid))
      modifies this
      ensures Inv(View())
      ensures r.Ok? <==> sid in old(sessions) || (specFound && AttachResult(old(View()), sid, pid).Ok?)
      ensures r.Ok? ==> Ok(View()) == AttachResult(old(View()), sid, pid) && sid in sessions && r.value == sessions[sid]
      ensures r.Err? ==> View() == old(View())
      ensures sid in old(sessions) ==> View() == old(View()) && r == Ok(old(sessions)[sid])
      ensures r.Ok? && sid !in old(sessions) ==>
        && sid in old(rows) && old(rows)[sid].ended == None && old(rows)[sid].claude.Some?
        && rows == old(rows)[sid := old(rows)[sid].(pid := pid)]
        && r.value == Runtime(sid, pid) && sessions == old(sessions)[sid := r.value]
        && alive == old(alive) + {r.value} && readers == old(readers) + {r.value} && enders == old(enders)
    {
      StepKeepsInv(View(), Step.Attach(sid, pid));
      if sid in sessions {
        return Ok(sessions[sid]);
      }
      if sid !in rows || rows[sid].ended.Some? {
        return Err(SessionNotFound);
      }
      if rows[sid].claude.None? {
        return Err(CannotResume);
      }
      if !specFound {
        return Err(InvalidSpec);
      }
      rows := rows[sid := rows[sid].(pid := pid)];
      Launch(sid, pid);
      r := Ok(sessions[sid]);
    }

    method FinalizeDbRow(sid: Sid, cause: Ending)
      modifies this`rows
      ensures rows == Finalize(old(rows), sid, cause)
      ensures sid in old(rows) && old(rows)[sid].ended == None ==>
        rows == old(rows)[sid := old(rows)[sid].(ended := Some(cause))]
      ensures sid !in old(rows) || old(rows)[sid].ended != None ==> rows == old(rows)
    {
      if sid !in rows {
        return;
      }
      if rows[sid].ended.Some? {
        return;
      }
      rows := rows[sid := rows[sid].(ended := Some(cause))];
    }

    method CleanupAfterExit(r: Runtime, cause: Ending)
      modifies this`rows, this`sessions
      ensures View() == Cleanup(old(View()), r.sid, cause)
      ensures sessions == old(sessions) - {r.sid}
      ensures r.sid in old(rows) && old(rows)[r.sid].ended == None ==>
        rows == old(rows)[r.sid := old(rows)[r.sid].(ended := Some(cause))]
    {
      FinalizeDbRow(r.sid, cause);
      sessions := sessions - {r.sid};
    }

    /** The end of `_pump_output`: the process reached EOF, or the reader crashed. */
    method ReaderDone(reader: Runtime, cleanExit: bool)
      requires Inv(View()) && reader in readers
      modifies this
      ensures Inv(View())
      ensures View() == After(old(View()), Step.ReaderDone(reader, if cleanExit then User else Crash))
      ensures Closed(View(), reader.sid)
    {
      StepKeepsInv(View(), Step.ReaderDone(reader, if cleanExit then User else Crash));
      assert Held(View(), reader);
      readers := readers - {reader};
      CleanupAfterExit(reader, if cleanExit then User else Crash);
    }

    /** `end_session` up to its grace period: a session without a runtime is finalized at once. */
    method EndStart(sid: Sid, cause: Ending, task: Task) returns (waiting: bool)
      requires Inv(View()) && task !in enders
      modifies this
      ensures Inv(View())
      ensures View() == After(old(View()), Step.EndStart(sid, cause, task))
      ensures waiting <==> sid in old(sessions)
      ensures waiting ==> rows == old(rows) && enders == old(enders)[task := old(sessions)[sid]]
      ensures !waiting ==> enders == old(enders)
      ensures sessions == old(sessions) && alive == old(alive)
      ensures !waiting && sid in rows ==> Closed(View(), sid)
    {
      StepKeepsInv(View(), Step.EndStart(sid, cause, task));
      waiting := sid in sessions;
      if !waiting {
        FinalizeDbRow(sid, cause);
        return;
      }
      enders := enders[task := sessions[sid]];
    }

    /** `end_session` after its grace period, with the runtime it took hold of before. */
    method EndFinish(task: Task, cause: Ending, killed: bool)
      requires Inv(View()) && task in enders
      modifies this
      ensures Inv(View())
      ensures View() == After(old(View()), Step.EndFinish(task, cause, killed))
      ensures Closed(View(), old(enders[task]).sid)
      ensures enders == old(enders) - {task} && sessions == old(sessions) - {old(enders[task]).sid}
      ensures alive == if killed then old(alive) - {old(enders[task])} else old(alive)
      ensures Open(old(rows), old(enders[task]).sid) ==>
        rows == old(rows)[old(enders[task]).sid := old(rows)[old(enders[task]).sid].(ended := Some(cause))]
    {
      StepKeepsInv(View(), Step.EndFinish(task, cause, killed));
      var r := enders[task];
      assert Held(View(), r);
      enders := enders - {task};
      if killed {
        alive := alive - {r};
      }
      CleanupAfterExit(r, cause);
    }
  }
}
