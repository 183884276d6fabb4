/**
 * The per-customer deploy ledger: an append-only log of deploy and acceptance events, the gate that keeps an
 * unaccepted version out of PROD, and the graduation that renames the first version a project ships to v1.0.0.
 *
 * `deploy` awaits the runner between its checks and its record, so it is two steps, `BeginDeploy` and
 * `FinishDeploy`, with a ticket between them; an undisturbed deploy is the one right after the other.
 */
module DeployLedger {
  import opened Prelude

  type Id = nat
  type Label = string

  const FIRST_PROD_VERSION: Label := "v1.0.0"

  datatype Environment = Uat | Prod
  datatype Kind = Deploy | Accept

  /** A row of `deploy_events`; an event's place in the log is its `seq`. */
  datatype Event = Event(customer: Id, project: Id, version: Label, environment: Environment, kind: Kind, ok: bool)

  /** A row of `versions`. */
  datatype Version = Version(project: Id, number: Label, released: bool)

  datatype Ledger = Ledger(customers: map<Id, Id>, versions: map<Id, Version>, events: seq<Event>)

  datatype Error =
    | UnknownEnvironment | CustomerNotFound | VersionNotFound | NotVerified | NotAccepted | NotDeployedToUat
    | AdminPasswordMissing | GraduationClash | DuplicateVersion

  /** What `deploy` holds on to while the runner works. */
  datatype Ticket = Ticket(customer: Id, project: Id, version: Id, tag: Label, environment: Environment, first: bool)

  // ---------------------------------------------------------------- queries

  predicate OkDeploy(e: Event, customer: Id, tag: Label, environment: Environment) {
    e == Event(customer, e.project, tag, environment, Deploy, true)
  }

  predicate IsAccepted(events: seq<Event>, customer: Id, tag: Label) {
    exists e :: e in events && e.customer == customer && e.version == tag && e.kind == Accept
  }

  predicate OkProd(e: Event, project: Id) {
    e.project == project && e.environment == Prod && e.kind == Deploy && e.ok
  }

  predicate HadProdDeploy(events: seq<Event>, project: Id) {
    exists e :: e in events && OkProd(e, project)
  }

  function CurrentVersion(events: seq<Event>, customer: Id, environment: Environment): Option<Label> {
    if events == [] then None
    else
      var e := events[|events| - 1];
      if OkDeploy(e, customer, e.version, environment) then Some(e.version)
      else CurrentVersion(events[..|events| - 1], customer, environment)
  }

  /** `id` is the version row carrying this number in this project. */
  predicate Names(versions: map<Id, Version>, project: Id, tag: Label, id: Id) {
    id in versions && versions[id].project == project && versions[id].number == tag
  }

  predicate Exists(versions: map<Id, Version>, project: Id, tag: Label) {
    exists id :: id in versions && Names(versions, project, tag, id)
  }

  ghost predicate UniqueNumbers(versions: map<Id, Version>) {
    forall a, b, p, n :: Names(versions, p, n, a) && Names(versions, p, n, b) ==> a == b
  }

  // ---------------------------------------------------------------- the two halves of a deploy, and the rest

  function Relabelled(e: Event, project: Id, from: Label, to: Label): Event {
    if e.project == project && e.version == from then e.(version := to) else e
  }

  function Relabel(events: seq<Event>, project: Id, from: Label, to: Label): (r: seq<Event>)
    ensures |r| == |events| && forall i :: 0 <= i < |r| ==> r[i] == Relabelled(events[i], project, from, to)
  {
    seq(|events|, i requires 0 <= i < |events| => Relabelled(events[i], project, from, to))
  }

  /** Rename the built version to v1.0.0 in place, carry its events along and release it. */
  function Graduate(l: Ledger, id: Id): Result<Ledger, Error> {
    if id !in l.versions then Err(VersionNotFound) else
    var v := l.versions[id];
    var done := Version(v.project, FIRST_PROD_VERSION, true);
    if v.number == FIRST_PROD_VERSION then Ok(l.(versions := l.versions[id := done]))
    else if Exists(l.versions, v.project, FIRST_PROD_VERSION) then Err(GraduationClash)
    else Ok(l.(versions := l.versions[id := done],
               events := Relabel(l.events, v.project, v.number, FIRST_PROD_VERSION)))
  }

  /** The checks of `deploy`, as a relation: `t` is the ticket it goes on with. */
  predicate Admitted(l: Ledger, t: Ticket, number: Label) {
    && t.customer in l.customers && l.customers[t.customer] == t.project
    && Names(l.versions, t.project, number, t.version)
    && (t.environment == Prod ==> IsAccepted(l.events, t.customer, number))
    && t.first == (t.environment == Prod && !HadProdDeploy(l.events, t.project))
    && t.tag == if t.first then FIRST_PROD_VERSION else number
  }

  /** The runner returned: graduate on a successful first PROD deploy, then record the event. */
  function Finish(l: Ledger, t: Ticket, ok: bool): Result<Ledger, Error> {
    var r := if t.first && ok then Graduate(l, t.version) else Ok(l);
    if r.Err? then r
    else Ok(r.value.(events := r.value.events + [Event(t.customer, t.project, t.tag, t.environment, Deploy, ok)]))
  }

  // ---------------------------------------------------------------- what the log promises

  predicate HasUatDeploy(events: seq<Event>, customer: Id, tag: Label) {
    exists e :: e in events && OkDeploy(e, customer, tag, Uat)
  }

  /** What must precede an event in the log. */
  predicate Justified(before: seq<Event>, e: Event) {
    && (e.kind == Accept ==> e.ok && HasUatDeploy(before, e.customer, e.version))
    && (e.kind == Deploy && e.environment == Prod && e.ok ==> IsAccepted(before, e.customer, e.version))
    && (e.kind == Deploy && e.environment == Prod && e.ok && !HadProdDeploy(before, e.project)
        ==> e.version == FIRST_PROD_VERSION)
  }

  /**
   * Every acceptance follows a successful UAT deploy of its pair, every successful PROD deploy follows an
   * acceptance of its pair, and a project's first successful PROD deploy is labelled v1.0.0.
   */
  ghost predicate GateKept(events: seq<Event>) {
    forall i :: 0 <= i < |events| ==> Justified(events[..i], events[i])
  }

  ghost predicate Coherent(l: Ledger) {
    && UniqueNumbers(l.versions)
    && (forall e :: e in l.events ==> e.customer in l.customers && l.customers[e.customer] == e.project)
    && (forall p :: HadProdDeploy(l.events, p) ==> Exists(l.versions, p, FIRST_PROD_VERSION))
    && GateKept(l.events)
  }

  /** A ticket in flight still satisfies the gate, whatever happened since it was issued. */
  ghost predicate TicketGood(l: Ledger, t: Ticket) {
    && t.customer in l.customers && l.customers[t.customer] == t.project
    && t.version in l.versions && l.versions[t.version].project == t.project
    && (t.first ==>
        t.environment == Prod && t.tag == FIRST_PROD_VERSION
        && IsAccepted(l.events, t.customer, l.versions[t.version].number))
    && (t.environment == Prod && !t.first ==>
        HadProdDeploy(l.events, t.project) && IsAccepted(l.events, t.customer, t.tag))
  }

  // ---------------------------------------------------------------- steps and runs

  datatype State = State(ledger: Ledger, flying: map<Id, Ticket>)

  datatype Step =
    | CreateVersion(id: Id, project: Id, number: Label)
    | RecordAccept(customer: Id, number: Label)
    | BeginDeploy(task: Id, ticket: Ticket, number: Label)
    | FinishDeploy(task: Id, ok: bool)

  predicate Enabled(s: State, step: Step) {
    var l := s.ledger;
    match step
    case CreateVersion(id, project, number) => id !in l.versions && !Exists(l.versions, project, number)
    case RecordAccept(customer, number) =>
      && customer in l.customers && Exists(l.versions, l.customers[customer], number)
      && HasUatDeploy(l.events, customer, number)
    case BeginDeploy(task, ticket, number) => task !in s.flying && Admitted(l, ticket, number)
    case FinishDeploy(task, ok) => task in s.flying
  }

  function After(s: State, step: Step): State
    requires Enabled(s, step)
  {
    var l := s.ledger;
    match step
    case CreateVersion(id, project, number) =>
      s.(ledger := l.(versions := l.versions[id := Version(project, number, false)]))
    case RecordAccept(customer, number) =>
      s.(ledger := l.(events := l.events + [Event(customer, l.customers[customer], number, Uat, Accept, true)]))
    case BeginDeploy(task, ticket, _) => s.(flying := s.flying[task := ticket])
    case FinishDeploy(task, ok) =>
      var r := Finish(l, s.flying[task], ok);
      State(if r.Ok? then r.value else l, s.flying - {task})
  }

  ghost predicate Reaches(start: State, steps: seq<Step>, end: State)
    decreases |steps|
  {
    if steps == [] then start == end
    else Enabled(start, steps[0]) && Reaches(After(start, steps[0]), steps[1..], end)
  }

  ghost predicate Inv(s: State) {
    && Coherent(s.ledger)
    && forall t :: t in s.flying ==> TicketGood(s.ledger, s.flying[t])
  }

  // ---------------------------------------------------------------- appending and relabelling keep the gate

  lemma AppendKeepsGate(events: seq<Event>, e: Event)
    requires GateKept(events) && Justified(events, e)
    ensures GateKept(events + [e])
  {
    var longer := events + [e];
    forall i | 0 <= i < |longer| ensures Justified(longer[..i], longer[i]) {
      if i < |events| {
        assert longer[..i] == events[..i];
      } else {
        assert longer[..i] == events;
      }
    }
  }

  /** Events of one customer are relabelled together, so a witness before relabelling is one after it. */
  lemma RelabelCarries(
      events: seq<Event>, customers: map<Id, Id>, project: Id, from: Label, to: Label, customer: Id, tag: Label)
    requires forall e :: e in events ==> e.customer in customers && customers[e.customer] == e.project
    requires customer in customers
    ensures var tag' := if customers[customer] == project && tag == from then to else tag;
      && (IsAccepted(events, customer, tag) ==> IsAccepted(Relabel(events, project, from, to), customer, tag'))
      && (HasUatDeploy(events, customer, tag) ==> HasUatDeploy(Relabel(events, project, from, to), customer, tag'))
  {
    var after := Relabel(events, project, from, to);
    if IsAccepted(events, customer, tag) {
      var e :| e in events && e.customer == customer && e.version == tag && e.kind == Accept;
      var i :| 0 <= i < |events| && events[i] == e;
      assert after[i] in after;
    }
    if HasUatDeploy(events, customer, tag) {
      var e :| e in events && OkDeploy(e, customer, tag, Uat);
      var i :| 0 <= i < |events| && events[i] == e;
      assert after[i] in after;
    }
  }

  lemma RelabelKeepsProd(events: seq<Event>, project: Id, from: Label, to: Label, p: Id)
    ensures HadProdDeploy(Relabel(events, project, from, to), p) <==> HadProdDeploy(events, p)
  {
    var after := Relabel(events, project, from, to);
    if e :| e in events && OkProd(e, p) {
      var i :| 0 <= i < |events| && events[i] == e;
      assert after[i] in after && OkProd(after[i], p);
    }
    if e :| e in after && OkProd(e, p) {
      var i :| 0 <= i < |events| && after[i] == e;
      assert events[i] in events && OkProd(events[i], p);
    }
  }

  /** Relabelling a project's history to v1.0.0 before its first PROD deploy keeps the gate. */
  lemma RelabelKeepsGate(events: seq<Event>, customers: map<Id, Id>, project: Id, from: Label)
    requires GateKept(events)
    requires forall e :: e in events ==> e.customer in customers && customers[e.customer] == e.project
    ensures GateKept(Relabel(events, project, from, FIRST_PROD_VERSION))
  {
    var after := Relabel(events, project, from, FIRST_PROD_VERSION);
    forall i | 0 <= i < |after| ensures Justified(after[..i], after[i]) {
      var e := events[i];
      assert e in events && Justified(events[..i], e);
      assert after[..i] == Relabel(events[..i], project, from, FIRST_PROD_VERSION);
      RelabelCarries(events[..i], customers, project, from, FIRST_PROD_VERSION, e.customer, e.version);
      RelabelKeepsProd(events[..i], project, from, FIRST_PROD_VERSION, e.project);
    }
  }

  /** A number other than v1.0.0 can only be graduated while its project has had no PROD deploy. */
  lemma GraduateKeepsCoherent(l: Ledger, id: Id)
    requires Coherent(l) && Graduate(l, id).Ok?
    ensures Coherent(Graduate(l, id).value)
    ensures Names(Graduate(l, id).value.versions, l.versions[id].project, FIRST_PROD_VERSION, id)
  {
    var v := l.versions[id];
    var l' := Graduate(l, id).value;
    assert forall p, n, x :: x != id ==> (Names(l'.versions, p, n, x) <==> Names(l.versions, p, n, x));
    assert Names(l'.versions, v.project, FIRST_PROD_VERSION, id);
    assert UniqueNumbers(l'.versions) by {
      if v.number == FIRST_PROD_VERSION {
        assert forall p, n :: Names(l'.versions, p, n, id) <==> Names(l.versions, p, n, id);
      }
    }
    forall p | HadProdDeploy(l'.events, p) ensures Exists(l'.versions, p, FIRST_PROD_VERSION) {
      if v.number != FIRST_PROD_VERSION {
        RelabelKeepsProd(l.events, v.project, v.number, FIRST_PROD_VERSION, p);
      }
      var x :| x in l.versions && Names(l.versions, p, FIRST_PROD_VERSION, x);
      assert Names(l'.versions, p, FIRST_PROD_VERSION, x);
    }
    if v.number != FIRST_PROD_VERSION {
      RelabelKeepsGate(l.events, l.customers, v.project, v.number);
      RelabelKeepsCustomers(l, v.project, v.number, FIRST_PROD_VERSION);
    }
  }

  lemma RelabelKeepsCustomers(l: Ledger, project: Id, from: Label, to: Label)
    requires forall e :: e in l.events ==> e.customer in l.customers && l.customers[e.customer] == e.project
    ensures forall e :: e in Relabel(l.events, project, from, to) ==>
      e.customer in l.customers && l.customers[e.customer] == e.project
  {
    forall e | e in Relabel(l.events, project, from, to)
      ensures e.customer in l.customers && l.customers[e.customer] == e.project
    {
      var i :| 0 <= i < |l.events| && Relabelled(l.events[i], project, from, to) == e;
      assert l.events[i] in l.events;
    }
  }

  /** What a customer accepted stays accepted under the number its version row carries now. */
  lemma GraduateCarriesAcceptance(l: Ledger, id: Id, customer: Id, version: Id)
    requires Coherent(l) && Graduate(l, id).Ok?
    requires customer in l.customers && version in l.versions && l.versions[version].project == l.customers[customer]
    requires IsAccepted(l.events, customer, l.versions[version].number)
    ensures var l' := Graduate(l, id).value; IsAccepted(l'.events, customer, l'.versions[version].number)
  {
    var v := l.versions[id];
    if v.number != FIRST_PROD_VERSION {
      var tag := l.versions[version].number;
      RelabelCarries(l.events, l.customers, v.project, v.number, FIRST_PROD_VERSION, customer, tag);
      if l.versions[version].number == v.number && l.versions[version].project == v.project {
        assert Names(l.versions, v.project, v.number, version) && Names(l.versions, v.project, v.number, id);
      }
    }
  }

  lemma GraduateKeepsTicket(l: Ledger, id: Id, t: Ticket)
    requires Coherent(l) && Graduate(l, id).Ok? && TicketGood(l, t)
    ensures TicketGood(Graduate(l, id).value, t)
  {
    var v := l.versions[id];
    if t.first {
      GraduateCarriesAcceptance(l, id, t.customer, t.version);
    } else if t.environment == Prod && v.number != FIRST_PROD_VERSION {
      assert t.project != v.project;
      RelabelCarries(l.events, l.customers, v.project, v.number, FIRST_PROD_VERSION, t.customer, t.tag);
      RelabelKeepsProd(l.events, v.project, v.number, FIRST_PROD_VERSION, t.project);
    }
  }

  lemma RecordKeepsTicket(l: Ledger, e: Event, t: Ticket)
    requires TicketGood(l, t)
    ensures TicketGood(l.(events := l.events + [e]), t)
  {
    var l' := l.(events := l.events + [e]);
    assert forall x :: x in l.events ==> x in l'.events;
  }

  lemma RecordKeepsProd(l: Ledger, e: Event, p: Id)
    requires HadProdDeploy(l.events, p) ==> Exists(l.versions, p, FIRST_PROD_VERSION)
    requires OkProd(e, e.project) ==> Exists(l.versions, e.project, FIRST_PROD_VERSION)
    requires HadProdDeploy(l.events + [e], p)
    ensures Exists(l.versions, p, FIRST_PROD_VERSION)
  {
    var x :| x in l.events + [e] && OkProd(x, p);
    if x != e {
      assert x in l.events;
    }
  }

  /** Recording a justified event keeps the ledger coherent. */
  lemma RecordKeepsCoherent(l: Ledger, e: Event)
    requires Coherent(l) && Justified(l.events, e)
    requires e.customer in l.customers && l.customers[e.customer] == e.project
    requires OkProd(e, e.project) ==> Exists(l.versions, e.project, FIRST_PROD_VERSION)
    ensures Coherent(l.(events := l.events + [e]))
  {
    AppendKeepsGate(l.events, e);
    forall p | HadProdDeploy(l.events + [e], p) ensures Exists(l.versions, p, FIRST_PROD_VERSION) {
      RecordKeepsProd(l, e, p);
    }
  }

  lemma FinishKeepsInv(l: Ledger, t: Ticket, ok: bool, others: map<Id, Ticket>)
    requires Coherent(l) && TicketGood(l, t) && Finish(l, t, ok).Ok?
    requires forall x :: x in others ==> TicketGood(l, others[x])
    ensures Inv(State(Finish(l, t, ok).value, others))
  {
    var mid := if t.first && ok then Graduate(l, t.version).value else l;
    if t.first && ok {
      GraduateKeepsCoherent(l, t.version);
      GraduateCarriesAcceptance(l, t.version, t.customer, t.version);
      assert Exists(mid.versions, t.project, FIRST_PROD_VERSION);
    }
    var e := Event(t.customer, t.project, t.tag, t.environment, Deploy, ok);
    RecordKeepsCoherent(mid, e);
    forall x | x in others ensures TicketGood(Finish(l, t, ok).value, others[x]) {
      if t.first && ok {
        GraduateKeepsTicket(l, t.version, others[x]);
      }
      RecordKeepsTicket(mid, e, others[x]);
    }
  }

  lemma CreateKeepsInv(s: State, id: Id, project: Id, number: Label)
    requires Inv(s) && Enabled(s, CreateVersion(id, project, number))
    ensures Inv(After(s, CreateVersion(id, project, number)))
  {
    var l, l' := s.ledger, After(s, CreateVersion(id, project, number)).ledger;
    assert forall p, n, x :: x != id ==> (Names(l'.versions, p, n, x) <==> Names(l.versions, p, n, x));
    assert forall p, n :: Names(l'.versions, p, n, id) <==> p == project && n == number;
    forall p | HadProdDeploy(l'.events, p) ensures Exists(l'.versions, p, FIRST_PROD_VERSION) {
      var x :| x in l.versions && Names(l.versions, p, FIRST_PROD_VERSION, x);
      assert Names(l'.versions, p, FIRST_PROD_VERSION, x);
    }
  }

  lemma StepKeepsInv(s: State, step: Step)
    requires Inv(s) && Enabled(s, step)
    ensures Inv(After(s, step))
  {
    match step {
      case CreateVersion(id, project, number) =>
        CreateKeepsInv(s, id, project, number);
      case RecordAccept(customer, number) =>
        var e := Event(customer, s.ledger.customers[customer], number, Uat, Accept, true);
        RecordKeepsCoherent(s.ledger, e);
        forall t | t in s.flying ensures TicketGood(After(s, step).ledger, s.flying[t]) {
          RecordKeepsTicket(s.ledger, e, s.flying[t]);
        }
      case BeginDeploy(task, ticket, number) =>
      case FinishDeploy(task, ok) =>
        if Finish(s.ledger, s.flying[task], ok).Ok? {
          FinishKeepsInv(s.ledger, s.flying[task], ok, s.flying - {task});
        }
    }
  }

  /**
   * The acceptance gate over every run, deploys overlapping in any way while their runners work and versions being
   * created meanwhile: every log that can arise keeps the gate, graduations included.
   */
  lemma {:induction false} GateNeverBypassed(start: State, steps: seq<Step>, end: State)
    requires Inv(start) && Reaches(start, steps, end)
    ensures Inv(end)
    ensures GateKept(end.ledger.events)
    decreases |steps|
  {
    if steps != [] {
      StepKeepsInv(start, steps[0]);
      GateNeverBypassed(After(start, steps[0]), steps[1..], end);
    }
  }

  /**
   * The gate, event by event, in the log of any run: in front of each ok PROD deploy stands an acceptance by the same
   * customer of the same version, in front of each acceptance an ok UAT deploy to that customer of that version, and
   * an ok PROD deploy with none of its project in front of it is labelled v1.0.0.
   */
  lemma GateOnEvents(start: State, steps: seq<Step>, end: State, i: nat)
    requires Inv(start) && Reaches(start, steps, end) && i < |end.ledger.events|
    ensures
      var log, e := end.ledger.events, end.ledger.events[i];
      && (e.kind == Deploy && e.environment == Prod && e.ok ==>
            exists j :: 0 <= j < i && log[j].kind == Accept
              && log[j].customer == e.customer && log[j].version == e.version)
      && (e.kind == Accept ==>
            exists j :: 0 <= j < i && log[j].kind == Deploy && log[j].environment == Uat && log[j].ok
              && log[j].customer == e.customer && log[j].version == e.version)
      && (e.kind == Deploy && e.environment == Prod && e.ok && e.version != "v1.0.0" ==>
            exists j :: 0 <= j < i && log[j].kind == Deploy && log[j].environment == Prod && log[j].ok
              && log[j].project == e.project)
  {
    GateNeverBypassed(start, steps, end);
    var log, e := end.ledger.events, end.ledger.events[i];
    assert Justified(log[..i], e);
    if IsAccepted(log[..i], e.customer, e.version) {
      EarlierAccept(log, i, e.customer, e.version);
    }
    if HasUatDeploy(log[..i], e.customer, e.version) {
      EarlierUat(log, i, e.customer, e.version);
    }
    if HadProdDeploy(log[..i], e.project) {
      EarlierProd(log, i, e.project);
    }
  }

  lemma EarlierAccept(log: seq<Event>, i: nat, customer: Id, version: Label)
    requires i <= |log| && IsAccepted(log[..i], customer, version)
    ensures exists j :: 0 <= j < i && log[j].kind == Accept && log[j].customer == customer && log[j].version == version
  {
    var x :| x in log[..i] && x.customer == customer && x.version == version && x.kind == Accept;
    var j :| 0 <= j < i && log[..i][j] == x;
    assert log[j] == x;
  }

  lemma EarlierUat(log: seq<Event>, i: nat, customer: Id, version: Label)
    requires i <= |log| && HasUatDeploy(log[..i], customer, version)
    ensures exists j :: 0 <= j < i && log[j].kind == Deploy && log[j].environment == Uat && log[j].ok
              && log[j].customer == customer && log[j].version == version
  {
    var x :| x in log[..i] && OkDeploy(x, customer, version, Uat);
    var j :| 0 <= j < i && log[..i][j] == x;
    assert log[j] == x;
  }

  lemma EarlierProd(log: seq<Event>, i: nat, project: Id)
    requires i <= |log| && HadProdDeploy(log[..i], project)
    ensures exists j :: 0 <= j < i && log[j].kind == Deploy && log[j].environment == Prod && log[j].ok
              && log[j].project == project
  {
    var x :| x in log[..i] && OkProd(x, project);
    var j :| 0 <= j < i && log[..i][j] == x;
    assert log[j] == x;
  }

  /** A ledger without history, on which any run may start. */
  lemma EmptyLedger(customers: map<Id, Id>)
    ensures Inv(State(Ledger(customers, map[], []), map[]))
  {
  }

  lemma AppendKeepsAcceptance(events: seq<Event>, e: Event, customer: Id, tag: Label)
    requires IsAccepted(events, customer, tag)
    ensures IsAccepted(events + [e], customer, tag)
  {
    var x :| x in events && x.customer == customer && x.version == tag && x.kind == Accept;
    assert x in events + [e];
  }

  /** The version row with this id carries a number its customer accepted. */
  predicate Carries(l: Ledger, customer: Id, version: Id) {
    && customer in l.customers && version in l.versions && l.versions[version].project == l.customers[customer]
    && IsAccepted(l.events, customer, l.versions[version].number)
  }

  lemma FinishCarries(l: Ledger, t: Ticket, ok: bool, customer: Id, version: Id)
    requires Coherent(l) && Carries(l, customer, version) && Finish(l, t, ok).Ok?
    ensures Carries(Finish(l, t, ok).value, customer, version)
  {
    var mid := if t.first && ok then Graduate(l, t.version).value else l;
    if t.first && ok {
      GraduateCarriesAcceptance(l, t.version, customer, version);
    }
    AppendKeepsAcceptance(mid.events, Event(t.customer, t.project, t.tag, t.environment, Deploy, ok),
                          customer, mid.versions[version].number);
  }

  lemma StepCarries(s: State, step: Step, customer: Id, version: Id)
    requires Coherent(s.ledger) && Enabled(s, step) && Carries(s.ledger, customer, version)
    ensures Carries(After(s, step).ledger, customer, version)
  {
    if step.FinishDeploy? && Finish(s.ledger, s.flying[step.task], step.ok).Ok? {
      FinishCarries(s.ledger, s.flying[step.task], step.ok, customer, version);
    }
  }

  /** An acceptance is never lost: it follows its version row through every later run. */
  lemma {:induction false} AcceptedForever(start: State, steps: seq<Step>, end: State, customer: Id, version: Id)
    requires Inv(start) && Reaches(start, steps, end) && Carries(start.ledger, customer, version)
    ensures Carries(end.ledger, customer, version)
    decreases |steps|
  {
    if steps != [] {
      StepCarries(start, steps[0], customer, version);
      StepKeepsInv(start, steps[0]);
      AcceptedForever(After(start, steps[0]), steps[1..], end, customer, version);
    }
  }

  // ---------------------------------------------------------------- labels, for deploys one at a time

  /** Every deploy records its outcome before anything else happens. */
  predicate OneAtATime(steps: seq<Step>)
    decreases |steps|
  {
    if steps == [] then true
    else if steps[0].BeginDeploy? then
      |steps| >= 2 && steps[1].FinishDeploy? && steps[1].task == steps[0].task && OneAtATime(steps[2..])
    else !steps[0].FinishDeploy? && OneAtATime(steps[1..])
  }

  /** The version label of every successful event names a version row of its project, and by uniqueness only one. */
  ghost predicate LabelsResolve(l: Ledger) {
    forall e :: e in l.events && e.ok ==> Exists(l.versions, e.project, e.version)
  }

  /** One whole deploy: admitted and recorded with nothing in between. */
  function Whole(l: Ledger, t: Ticket, ok: bool): Ledger {
    var r := Finish(l, t, ok);
    if r.Ok? then r.value else l
  }

  lemma GraduateKeepsLabels(l: Ledger, id: Id)
    requires Coherent(l) && LabelsResolve(l) && Graduate(l, id).Ok?
    ensures LabelsResolve(Graduate(l, id).value)
  {
    var v := l.versions[id];
    var l' := Graduate(l, id).value;
    forall e | e in l'.events && e.ok ensures Exists(l'.versions, e.project, e.version) {
      var i :| 0 <= i < |l'.events| && l'.events[i] == e;
      var was := l.events[i];
      assert was in l.events;
      var x :| x in l.versions && Names(l.versions, was.project, was.version, x);
      assert Names(l'.versions, e.project, e.version, x) by {
        if x == id {
          assert v.number == was.version;
        } else if was.project == v.project && was.version == v.number {
          assert Names(l.versions, v.project, v.number, id);
        }
      }
    }
  }

  lemma WholeKeepsLabels(l: Ledger, t: Ticket, number: Label, ok: bool)
    requires Coherent(l) && LabelsResolve(l) && Admitted(l, t, number)
    ensures LabelsResolve(Whole(l, t, ok))
  {
    if Finish(l, t, ok).Ok? {
      var mid := if t.first && ok then Graduate(l, t.version).value else l;
      if t.first && ok {
        GraduateKeepsLabels(l, t.version);
        GraduateKeepsCoherent(l, t.version);
        assert Exists(mid.versions, t.project, FIRST_PROD_VERSION);
      } else {
        assert Names(mid.versions, t.project, number, t.version);
      }
    }
  }

  lemma StepKeepsLabels(s: State, step: Step)
    requires Inv(s) && LabelsResolve(s.ledger) && Enabled(s, step) && !step.FinishDeploy?
    ensures LabelsResolve(After(s, step).ledger)
  {
    if step.CreateVersion? {
      forall p, n | Exists(s.ledger.versions, p, n) ensures Exists(After(s, step).ledger.versions, p, n) {
        var x :| x in s.ledger.versions && Names(s.ledger.versions, p, n, x);
        assert Names(After(s, step).ledger.versions, p, n, x);
      }
    }
  }

  /** Over every run of deploys one at a time, the labels of successful events resolve. */
  lemma {:induction false} LabelsAlwaysResolve(start: State, steps: seq<Step>, end: State)
    requires Inv(start) && LabelsResolve(start.ledger) && Reaches(start, steps, end) && OneAtATime(steps)
    ensures LabelsResolve(end.ledger) && UniqueNumbers(end.ledger.versions)
    decreases |steps|
  {
    if steps != [] {
      var next := After(start, steps[0]);
      StepKeepsInv(start, steps[0]);
      if steps[0].BeginDeploy? {
        var finished := After(next, steps[1]);
        assert steps[1..][1..] == steps[2..];
        WholeKeepsLabels(start.ledger, steps[0].ticket, steps[0].number, steps[1].ok);
        StepKeepsInv(next, steps[1]);
        LabelsAlwaysResolve(finished, steps[2..], end);
      } else {
        StepKeepsLabels(start, steps[0]);
        LabelsAlwaysResolve(next, steps[1..], end);
      }
    }
  }

  /** What `deploy` could check before it records: the label of an ok event that renamed nothing still resolves. */
  predicate Confirmed(l: Ledger, t: Ticket, ok: bool) {
    ok && !t.first ==> Exists(l.versions, t.project, t.tag)
  }

  /** A record keeps labels resolving if and only if its label is confirmed, however much happened meanwhile. */
  lemma FinishResolvesIff(l: Ledger, t: Ticket, ok: bool)
    requires Coherent(l) && LabelsResolve(l) && TicketGood(l, t) && Finish(l, t, ok).Ok?
    ensures LabelsResolve(Finish(l, t, ok).value) <==> Confirmed(l, t, ok)
  {
    var mid := if t.first && ok then Graduate(l, t.version).value else l;
    if t.first && ok {
      GraduateKeepsLabels(l, t.version);
      GraduateKeepsCoherent(l, t.version);
    }
    var e := Event(t.customer, t.project, t.tag, t.environment, Deploy, ok);
    assert Finish(l, t, ok).value.events == mid.events + [e] && e in mid.events + [e];
  }

  /** Labels resolve at the start and after every step of a run. */
  ghost predicate ResolveThroughout(start: State, steps: seq<Step>)
    decreases |steps|
  {
    LabelsResolve(start.ledger)
    && (steps != [] && Enabled(start, steps[0]) ==> ResolveThroughout(After(start, steps[0]), steps[1..]))
  }

  /** Every record of a run that goes through has a confirmed label when it is made. */
  predicate ConfirmedStep(s: State, step: Step) {
    step.FinishDeploy? && step.task in s.flying && Finish(s.ledger, s.flying[step.task], step.ok).Ok? ==>
      Confirmed(s.ledger, s.flying[step.task], step.ok)
  }

  ghost predicate AllConfirmed(start: State, steps: seq<Step>)
    decreases |steps|
  {
    steps != [] && Enabled(start, steps[0]) ==>
      ConfirmedStep(start, steps[0]) && AllConfirmed(After(start, steps[0]), steps[1..])
  }

  lemma StepResolvesIff(s: State, step: Step)
    requires Inv(s) && LabelsResolve(s.ledger) && Enabled(s, step)
    ensures LabelsResolve(After(s, step).ledger) <==> ConfirmedStep(s, step)
  {
    if step.FinishDeploy? {
      if Finish(s.ledger, s.flying[step.task], step.ok).Ok? {
        FinishResolvesIff(s.ledger, s.flying[step.task], step.ok);
      }
    } else {
      StepKeepsLabels(s, step);
    }
  }

  /**
   * Exactly when the labels of ok events resolve throughout a run, deploys overlapping in any way: when every ok
   * record that graduates nothing finds its label among the project's versions.
   */
  lemma {:induction false} LabelsResolveIff(start: State, steps: seq<Step>, end: State)
    requires Inv(start) && LabelsResolve(start.ledger) && Reaches(start, steps, end)
    ensures ResolveThroughout(start, steps) <==> AllConfirmed(start, steps)
    decreases |steps|
  {
    if steps != [] {
      StepResolvesIff(start, steps[0]);
      StepKeepsInv(start, steps[0]);
      if ConfirmedStep(start, steps[0]) {
        LabelsResolveIff(After(start, steps[0]), steps[1..], end);
      }
    }
  }

  // ---------------------------------------------------------------- who can leave a label behind

  /** A PROD deploy that is not the project's first goes under a number that still exists. */
  ghost predicate ProdTagged(s: State) {
    forall t :: t in s.flying && s.flying[t].environment == Prod && !s.flying[t].first ==>
      Exists(s.ledger.versions, s.flying[t].project, s.flying[t].tag)
  }

  lemma GraduateKeepsNumber(l: Ledger, id: Id, project: Id, tag: Label)
    requires Coherent(l) && Graduate(l, id).Ok? && Exists(l.versions, project, tag)
    requires HadProdDeploy(l.events, project)
    ensures Exists(Graduate(l, id).value.versions, project, tag)
  {
    var after := Graduate(l, id).value.versions;
    var x :| x in l.versions && Names(l.versions, project, tag, x);
    assert Exists(l.versions, project, FIRST_PROD_VERSION);
    if x == id {
      assert l.versions[id].number == FIRST_PROD_VERSION;
      assert after[id] == Version(project, FIRST_PROD_VERSION, true);
      assert Names(after, project, tag, id);
    } else {
      assert after[x] == l.versions[x];
      assert Names(after, project, tag, x);
    }
  }

  lemma StepKeepsProdTagged(s: State, step: Step)
    requires Inv(s) && ProdTagged(s) && Enabled(s, step)
    ensures ProdTagged(After(s, step))
  {
    var next := After(s, step);
    forall t | t in next.flying && next.flying[t].environment == Prod && !next.flying[t].first
      ensures Exists(next.ledger.versions, next.flying[t].project, next.flying[t].tag)
    {
      StepKeepsNumber(s, step, t);
    }
  }

  lemma StepKeepsNumber(s: State, step: Step, t: Id)
    requires Inv(s) && ProdTagged(s) && Enabled(s, step) && t in After(s, step).flying
    requires After(s, step).flying[t].environment == Prod && !After(s, step).flying[t].first
    ensures Exists(After(s, step).ledger.versions, After(s, step).flying[t].project, After(s, step).flying[t].tag)
  {
    var ticket := After(s, step).flying[t];
    match step {
      case CreateVersion(id, project, number) =>
        var x :| x in s.ledger.versions && Names(s.ledger.versions, ticket.project, ticket.tag, x);
        assert Names(After(s, step).ledger.versions, ticket.project, ticket.tag, x);
      case RecordAccept(customer, number) =>
      case BeginDeploy(task, begun, number) =>
        if t == task {
          assert Names(s.ledger.versions, ticket.project, number, ticket.version);
        }
      case FinishDeploy(task, ok) =>
        var done := s.flying[task];
        assert TicketGood(s.ledger, ticket);
        if done.first && ok && Graduate(s.ledger, done.version).Ok? {
          GraduateKeepsNumber(s.ledger, done.version, ticket.project, ticket.tag);
        }
    }
  }

  /** Whatever overlaps, only a UAT deploy can record an ok label that no longer resolves. */
  lemma {:induction false} OnlyUatCanDangle(start: State, steps: seq<Step>, end: State, task: Id, ok: bool)
    requires Inv(start) && ProdTagged(start) && Reaches(start, steps, end) && task in end.flying
    ensures !Confirmed(end.ledger, end.flying[task], ok) ==> end.flying[task].environment == Uat
    decreases |steps|
  {
    if steps != [] {
      StepKeepsInv(start, steps[0]);
      StepKeepsProdTagged(start, steps[0]);
      OnlyUatCanDangle(After(start, steps[0]), steps[1..], end, task, ok);
    }
  }

  /** A UAT deploy that ends after a graduation renamed its version: the label it records names no version. */
  lemma OverlapLeavesDanglingLabel()
    ensures exists start: State, steps: seq<Step>, end: State ::
      Inv(start) && LabelsResolve(start.ledger) && Reaches(start, steps, end) && !LabelsResolve(end.ledger)
  {
    var l := AcceptedOnce();
    var slow := Ticket(1, 7, 5, "v0.1.0", Uat, false);
    var fast := Ticket(1, 7, 5, FIRST_PROD_VERSION, Prod, true);
    var s0 := State(l, map[]);
    AcceptedOnceCoherent();
    var s1 := After(s0, BeginDeploy(0, slow, "v0.1.0"));
    var s2 := After(s1, BeginDeploy(1, fast, "v0.1.0"));
    var s3 := After(s2, FinishDeploy(1, true));
    var s4 := After(s3, FinishDeploy(0, true));
    var begins := [BeginDeploy(0, slow, "v0.1.0"), BeginDeploy(1, fast, "v0.1.0")];
    var steps := begins + [FinishDeploy(1, true), FinishDeploy(0, true)];
    FourSteps(s0, steps, s1, s2, s3, s4);
    var last := s4.ledger.events[|s4.ledger.events| - 1];
    assert last == Event(1, 7, "v0.1.0", Uat, Deploy, true) && last in s4.ledger.events;
    assert !Exists(s4.ledger.versions, 7, "v0.1.0");
  }

  lemma FourSteps(s0: State, steps: seq<Step>, s1: State, s2: State, s3: State, s4: State)
    requires |steps| == 4
    requires Enabled(s0, steps[0]) && s1 == After(s0, steps[0]) && Enabled(s1, steps[1]) && s2 == After(s1, steps[1])
    requires Enabled(s2, steps[2]) && s3 == After(s2, steps[2]) && Enabled(s3, steps[3]) && s4 == After(s3, steps[3])
    ensures Reaches(s0, steps, s4)
  {
    assert Reaches(s4, steps[4..], s4);
    assert steps[3..][1..] == steps[4..] && Reaches(s3, steps[3..], s4);
    assert steps[2..][1..] == steps[3..] && Reaches(s2, steps[2..], s4);
    assert steps[1..][1..] == steps[2..] && Reaches(s1, steps[1..], s4);
  }

  /** One version, deployed to UAT and accepted by its customer. */
  function AcceptedOnce(): Ledger {
    Ledger(map[1 := 7], map[5 := Version(7, "v0.1.0", false)],
           [Event(1, 7, "v0.1.0", Uat, Deploy, true), Event(1, 7, "v0.1.0", Uat, Accept, true)])
  }

  lemma AcceptedOnceCoherent()
    ensures Inv(State(AcceptedOnce(), map[])) && LabelsResolve(AcceptedOnce())
    ensures Names(AcceptedOnce().versions, 7, "v0.1.0", 5) && IsAccepted(AcceptedOnce().events, 1, "v0.1.0")
    ensures forall p :: !HadProdDeploy(AcceptedOnce().events, p)
  {
    var l := AcceptedOnce();
    assert l.events[..1] == [l.events[0]];
    assert l.events[0] in l.events[..1] && OkDeploy(l.events[0], 1, "v0.1.0", Uat);
    assert l.events[1] in l.events;
    assert Names(l.versions, 7, "v0.1.0", 5);
  }

  // ---------------------------------------------------------------- graduation

  /** The step records a successful first PROD deploy of the project. */
  predicate Graduates(s: State, step: Step, project: Id) {
    && step.FinishDeploy? && step.ok && step.task in s.flying
    && s.flying[step.task].first && s.flying[step.task].project == project
    && Finish(s.ledger, s.flying[step.task], true).Ok?
  }

  ghost function Graduations(start: State, steps: seq<Step>, project: Id): nat
    decreases |steps|
  {
    if steps == [] || !Enabled(start, steps[0]) then 0
    else
      (if Graduates(start, steps[0], project) then 1 else 0)
      + Graduations(After(start, steps[0]), steps[1..], project)
  }

  lemma StepKeepsProd(s: State, step: Step, project: Id)
    requires Enabled(s, step)
    ensures HadProdDeploy(s.ledger.events, project)
        || (Graduates(s, step, project) && s.flying[step.task].environment == Prod)
      ==> HadProdDeploy(After(s, step).ledger.events, project)
  {
    var events := s.ledger.events;
    if step.FinishDeploy? && Finish(s.ledger, s.flying[step.task], step.ok).Ok? {
      var t := s.flying[step.task];
      if t.first && step.ok && s.ledger.versions[t.version].number != FIRST_PROD_VERSION {
        var v := s.ledger.versions[t.version];
        RelabelKeepsProd(events, v.project, v.number, FIRST_PROD_VERSION, project);
        events := Relabel(events, v.project, v.number, FIRST_PROD_VERSION);
      }
      var e := Event(t.customer, t.project, t.tag, t.environment, Deploy, step.ok);
      assert After(s, step).ledger.events == events + [e];
      assert e in After(s, step).ledger.events;
    }
    if p :| p in events && OkProd(p, project) {
      assert p in After(s, step).ledger.events;
    }
  }

  /** With deploys one at a time, a project graduates at most once, and never after its first PROD deploy. */
  lemma {:induction false} GraduatesAtMostOnce(start: State, steps: seq<Step>, end: State, project: Id)
    requires Reaches(start, steps, end) && OneAtATime(steps)
    ensures Graduations(start, steps, project) <= if HadProdDeploy(start.ledger.events, project) then 0 else 1
    decreases |steps|
  {
    if steps != [] {
      var next := After(start, steps[0]);
      StepKeepsProd(start, steps[0], project);
      if steps[0].BeginDeploy? {
        var finished := After(next, steps[1]);
        assert steps[1..][0] == steps[1] && steps[1..][1..] == steps[2..];
        StepKeepsProd(next, steps[1], project);
        GraduatesAtMostOnce(finished, steps[2..], end, project);
      } else {
        GraduatesAtMostOnce(next, steps[1..], end, project);
      }
    }
  }

  /** Every graduation of a run finds no PROD deploy of the project yet when it is recorded. */
  ghost predicate NoneTwice(start: State, steps: seq<Step>, project: Id)
    decreases |steps|
  {
    steps != [] && Enabled(start, steps[0]) ==>
      && (Graduates(start, steps[0], project) ==> !HadProdDeploy(start.ledger.events, project))
      && NoneTwice(After(start, steps[0]), steps[1..], project)
  }

  /** A project's first successful PROD deploy is a graduation. */
  lemma FirstProdGraduates(s: State, step: Step, project: Id)
    requires Inv(s) && Enabled(s, step) && !HadProdDeploy(s.ledger.events, project)
    requires HadProdDeploy(After(s, step).ledger.events, project)
    ensures Graduates(s, step, project)
  {
    var e :| e in After(s, step).ledger.events && OkProd(e, project);
    if step.FinishDeploy? && Finish(s.ledger, s.flying[step.task], step.ok).Ok? {
      var t := s.flying[step.task];
      assert TicketGood(s.ledger, t);
      FinishLog(s.ledger, t, step.ok, project, e);
    }
  }

  /** A recorded deploy changes who had a PROD deploy only by its own event. */
  lemma FinishLog(l: Ledger, t: Ticket, ok: bool, project: Id, e: Event)
    requires Finish(l, t, ok).Ok? && !HadProdDeploy(l.events, project)
    requires e in Finish(l, t, ok).value.events && OkProd(e, project)
    ensures e == Event(t.customer, t.project, t.tag, t.environment, Deploy, ok)
  {
    var last := Event(t.customer, t.project, t.tag, t.environment, Deploy, ok);
    if e != last {
      if t.first && ok && l.versions[t.version].number != FIRST_PROD_VERSION {
        var v := l.versions[t.version];
        RelabelKeepsProd(l.events, v.project, v.number, FIRST_PROD_VERSION, project);
      }
    }
  }

  /** A graduation leaves a PROD deploy of its project behind, and one that is there stays. */
  lemma GraduationIsProd(s: State, step: Step, project: Id)
    requires Inv(s) && Enabled(s, step)
    requires HadProdDeploy(s.ledger.events, project) || Graduates(s, step, project)
    ensures HadProdDeploy(After(s, step).ledger.events, project)
  {
    if Graduates(s, step, project) {
      assert TicketGood(s.ledger, s.flying[step.task]);
    }
    StepKeepsProd(s, step, project);
  }

  /**
   * Exactly when a project graduates at most once in a run, deploys overlapping in any way, and never after an ok
   * PROD deploy: when every graduation still finds no PROD deploy of the project at the moment it is recorded.
   */
  lemma {:induction false} GraduatesOnceIff(start: State, steps: seq<Step>, end: State, project: Id)
    requires Inv(start) && Reaches(start, steps, end)
    ensures Graduations(start, steps, project) <= (if HadProdDeploy(start.ledger.events, project) then 0 else 1)
      <==> NoneTwice(start, steps, project)
    decreases |steps|
  {
    if steps != [] {
      var next := After(start, steps[0]);
      StepKeepsInv(start, steps[0]);
      GraduatesOnceIff(next, steps[1..], end, project);
      if HadProdDeploy(start.ledger.events, project) || Graduates(start, steps[0], project) {
        GraduationIsProd(start, steps[0], project);
      } else if HadProdDeploy(next.ledger.events, project) {
        FirstProdGraduates(start, steps[0], project);
      }
    }
  }

  /** Two first PROD deploys of one version that overlap: both are recorded as its graduation. */
  lemma OverlapGraduatesTwice()
    ensures exists start: State, steps: seq<Step>, end: State ::
      Inv(start) && Reaches(start, steps, end) && Graduations(start, steps, 7) == 2
  {
    var first := Ticket(1, 7, 5, FIRST_PROD_VERSION, Prod, true);
    var s0 := State(AcceptedOnce(), map[]);
    AcceptedOnceCoherent();
    var s1 := After(s0, BeginDeploy(0, first, "v0.1.0"));
    var s2 := After(s1, BeginDeploy(1, first, "v0.1.0"));
    var s3 := After(s2, FinishDeploy(0, true));
    assert s3.ledger.versions[5].number == FIRST_PROD_VERSION;
    var s4 := After(s3, FinishDeploy(1, true));
    var begins := [BeginDeploy(0, first, "v0.1.0"), BeginDeploy(1, first, "v0.1.0")];
    var steps := begins + [FinishDeploy(0, true), FinishDeploy(1, true)];
    FourSteps(s0, steps, s1, s2, s3, s4);
    LastTwoGraduate(s0, steps, s1, s2, s3, s4);
  }

  lemma LastTwoGraduate(s0: State, steps: seq<Step>, s1: State, s2: State, s3: State, s4: State)
    requires |steps| == 4 && steps[0].BeginDeploy? && steps[1].BeginDeploy?
    requires Enabled(s0, steps[0]) && s1 == After(s0, steps[0]) && Enabled(s1, steps[1]) && s2 == After(s1, steps[1])
    requires Enabled(s2, steps[2]) && s3 == After(s2, steps[2]) && Enabled(s3, steps[3]) && s4 == After(s3, steps[3])
    requires Graduates(s2, steps[2], 7) && Graduates(s3, steps[3], 7)
    ensures Graduations(s0, steps, 7) == 2
  {
    assert Graduations(s4, steps[4..], 7) == 0;
    assert steps[3..][1..] == steps[4..] && Graduations(s3, steps[3..], 7) == 1;
    assert steps[2..][1..] == steps[3..] && Graduations(s2, steps[2..], 7) == 2;
    assert steps[1..][1..] == steps[2..] && Graduations(s1, steps[1..], 7) == 2;
  }

  /** The step gives a version row of the project another number. */
  predicate Renames(s: State, step: Step, project: Id) {
    Graduates(s, step, project) && s.ledger.versions[s.flying[step.task].version].number != FIRST_PROD_VERSION
    && s.ledger.versions[s.flying[step.task].version].project == project
  }

  ghost function Renamings(start: State, steps: seq<Step>, project: Id): nat
    decreases |steps|
  {
    if steps == [] || !Enabled(start, steps[0]) then 0
    else (if Renames(start, steps[0], project) then 1 else 0) + Renamings(After(start, steps[0]), steps[1..], project)
  }

  /** Once a project has a v1.0.0 it keeps it, and a renaming leaves one. */
  lemma FirstVersionStays(s: State, step: Step, project: Id)
    requires Enabled(s, step)
    requires Exists(s.ledger.versions, project, FIRST_PROD_VERSION) || Renames(s, step, project)
    ensures Exists(After(s, step).ledger.versions, project, FIRST_PROD_VERSION)
  {
    var versions := After(s, step).ledger.versions;
    if Renames(s, step, project) {
      assert Names(versions, project, FIRST_PROD_VERSION, s.flying[step.task].version);
    } else {
      var x :| x in s.ledger.versions && Names(s.ledger.versions, project, FIRST_PROD_VERSION, x);
      assert Names(versions, project, FIRST_PROD_VERSION, x);
    }
  }

  /** However deploys overlap, at most one version row of a project is ever renamed, and none once there is a v1.0.0. */
  lemma {:induction false} RenamedAtMostOnce(start: State, steps: seq<Step>, end: State, project: Id)
    requires Reaches(start, steps, end)
    ensures Renamings(start, steps, project)
      <= if Exists(start.ledger.versions, project, FIRST_PROD_VERSION) then 0 else 1
    decreases |steps|
  {
    if steps != [] {
      if Exists(start.ledger.versions, project, FIRST_PROD_VERSION) || Renames(start, steps[0], project) {
        FirstVersionStays(start, steps[0], project);
      }
      RenamedAtMostOnce(After(start, steps[0]), steps[1..], end, project);
    }
  }

  /** Every graduation of the project in a run is of this version row. */
  ghost predicate OnlyGraduates(start: State, steps: seq<Step>, project: Id, row: Id)
    decreases |steps|
  {
    steps != [] && Enabled(start, steps[0]) ==>
      && (Graduates(start, steps[0], project) ==> start.flying[steps[0].task].version == row)
      && OnlyGraduates(After(start, steps[0]), steps[1..], project, row)
  }

  lemma FirstRowStays(s: State, step: Step, project: Id, row: Id)
    requires Enabled(s, step) && Names(s.ledger.versions, project, FIRST_PROD_VERSION, row)
    ensures Names(After(s, step).ledger.versions, project, FIRST_PROD_VERSION, row)
  {
  }

  /** The row that is v1.0.0 stays v1.0.0, and no other row graduates beside it. */
  lemma {:induction false} NoOtherGraduates(start: State, steps: seq<Step>, end: State, project: Id, row: Id)
    requires Inv(start) && Reaches(start, steps, end)
    requires row in start.ledger.versions && Names(start.ledger.versions, project, FIRST_PROD_VERSION, row)
    ensures OnlyGraduates(start, steps, project, row)
    decreases |steps|
  {
    if steps != [] {
      StepKeepsInv(start, steps[0]);
      FirstRowStays(start, steps[0], project, row);
      NoOtherGraduates(After(start, steps[0]), steps[1..], end, project, row);
      if Graduates(start, steps[0], project) {
        var ticket := start.flying[steps[0].task];
        assert TicketGood(start.ledger, ticket);
        GraduatedIsFirst(start.ledger, ticket.version, row);
      }
    }
  }

  /** Only the row that is v1.0.0 already graduates where there is one. */
  lemma GraduatedIsFirst(l: Ledger, id: Id, row: Id)
    requires Coherent(l) && Graduate(l, id).Ok? && row in l.versions
    requires Names(l.versions, l.versions[id].project, FIRST_PROD_VERSION, row)
    ensures id == row
  {
    assert Exists(l.versions, l.versions[id].project, FIRST_PROD_VERSION);
    assert Names(l.versions, l.versions[id].project, FIRST_PROD_VERSION, id);
  }

  /** However deploys overlap, a project has one version row that graduates: every later graduation is of the same. */
  lemma OneRowGraduates(start: State, steps: seq<Step>, end: State, project: Id)
    requires Inv(start) && Reaches(start, steps, end) && steps != [] && Graduates(start, steps[0], project)
    ensures OnlyGraduates(start, steps, project, start.flying[steps[0].task].version)
  {
    var ticket := start.flying[steps[0].task];
    StepKeepsInv(start, steps[0]);
    assert TicketGood(start.ledger, ticket);
    assert Names(After(start, steps[0]).ledger.versions, project, FIRST_PROD_VERSION, ticket.version);
    NoOtherGraduates(After(start, steps[0]), steps[1..], end, project, ticket.version);
  }

  lemma {:induction false} CurrentVersionRelabelled(
    events: seq<Event>, customers: map<Id, Id>, project: Id, from: Label, customer: Id, environment: Environment)
    requires forall e :: e in events ==> e.customer in customers && customers[e.customer] == e.project
    requires customer in customers
    ensures var was := CurrentVersion(events, customer, environment);
      CurrentVersion(Relabel(events, project, from, FIRST_PROD_VERSION), customer, environment)
      == if customers[customer] == project && was == Some(from) then Some(FIRST_PROD_VERSION) else was
  {
    if events != [] {
      var n := |events| - 1;
      var after := Relabel(events, project, from, FIRST_PROD_VERSION);
      assert events[n] in events;
      assert after[..n] == Relabel(events[..n], project, from, FIRST_PROD_VERSION);
      CurrentVersionRelabelled(events[..n], customers, project, from, customer, environment);
    }
  }

  /** What a customer currently runs is the version of the latest ok deploy event of the environment. */
  lemma {:induction false} CurrentVersionIsLatest(
      events: seq<Event>, customer: Id, environment: Environment, i: nat)
    requires i < |events|
    requires forall j :: i < j < |events| ==>
      !(events[j].customer == customer && events[j].environment == environment
        && events[j].kind == Deploy && events[j].ok)
    ensures
      var e := events[i];
      if e.customer == customer && e.environment == environment && e.kind == Deploy && e.ok
      then CurrentVersion(events, customer, environment) == Some(e.version)
      else CurrentVersion(events, customer, environment) == CurrentVersion(events[..i], customer, environment)
    ensures CurrentVersion([], customer, environment) == None
  {
    var n := |events| - 1;
    assert events[..n][..i] == events[..i];
    if i < n {
      assert forall j :: i < j < n ==> events[..n][j] == events[j];
      CurrentVersionIsLatest(events[..n], customer, environment, i);
    }
  }

  /** Graduation changes what a customer currently runs only by putting the new label in the place of the old. */
  lemma GraduateSubstitutes(l: Ledger, id: Id, customer: Id, environment: Environment)
    requires Coherent(l) && Graduate(l, id).Ok? && customer in l.customers
    ensures var was := CurrentVersion(l.events, customer, environment);
      CurrentVersion(Graduate(l, id).value.events, customer, environment)
      == if l.customers[customer] == l.versions[id].project && was == Some(l.versions[id].number)
         then Some(FIRST_PROD_VERSION) else was
  {
    var v := l.versions[id];
    CurrentVersionRelabelled(l.events, l.customers, v.project, v.number, customer, environment);
  }

  // ---------------------------------------------------------------- the service

  /** `backend.services.deploy` over one database. */
  class DeployService {
    var customers: map<Id, Id>
    var versions: map<Id, Version>
    var events: seq<Event>

    function View(): Ledger
      reads this
    {
      Ledger(customers, versions, events)
    }

    constructor (customers: map<Id, Id>)
      ensures View() == Ledger(customers, map[], []) && Coherent(View()) && LabelsResolve(View())
    {
      this.customers, versions, events := customers, map[], [];
    }

    method Accept(customer: Id, number: Label) returns (r: Result<Event, Error>)
      requires Coherent(View())
      modifies this`events
      ensures Coherent(View())
      ensures r.Ok? <==> Enabled(State(old(View()), map[]), RecordAccept(customer, number))
      ensures r.Ok? ==> View() == After(State(old(View()), map[]), RecordAccept(customer, number)).ledger
      ensures r.Ok? ==> IsAccepted(events, customer, number) && events == old(events) + [r.value]
      ensures r.Ok? ==> customer in customers
      ensures r.Ok? ==> r.value == Event(customer, customers[customer], number, Uat, Kind.Accept, true)
      ensures r.Ok? ==>
        && (exists id :: id in versions && versions[id].project == customers[customer] && versions[id].number == number)
        && (exists i :: 0 <= i < |events| - 1 && events[i].kind == Kind.Deploy && events[i].environment == Uat
              && events[i].ok && events[i].customer == customer && events[i].version == number)
      ensures r == Err(NotDeployedToUat) ==>
        forall i :: 0 <= i < |events| ==>
          !(events[i].kind == Kind.Deploy && events[i].environment == Uat && events[i].ok
            && events[i].customer == customer && events[i].version == number)
      ensures r == Err(VersionNotFound) ==>
        && customer in customers
        && forall id :: id in versions ==>
             !(versions[id].project == customers[customer] && versions[id].number == number)
      ensures r.Err? ==> events == old(events)
      ensures r.Err? ==> (r.error ==
        if customer !in customers then CustomerNotFound
        else if !Exists(versions, customers[customer], number) then VersionNotFound
        else NotDeployedToUat)
    {
      if customer !in customers {
        return Err(CustomerNotFound);
      }
      if !Exists(versions, customers[customer], number) {
        return Err(VersionNotFound);
      }
      if !exists e :: e in events && OkDeploy(e, customer, number, Uat) {
        return Err(NotDeployedToUat);
      }
      StepKeepsInv(State(View(), map[]), RecordAccept(customer, number));
      var event := Event(customer, customers[customer], number, Uat, Kind.Accept, true);
      events := events + [event];
      assert event in events;
      r := Ok(event);
    }

    /** The checks of `deploy`, up to the call of the runner. */
    method BeginDeploy(customer: Id, environment: string, number: Label, verified: bool, adminPasswordMissing: bool)
      returns (r: Result<Ticket, Error>)
      ensures r.Ok? ==>
        && Admitted(View(), r.value, number)
        && r.value.customer == customer && environment == if r.value.environment == Prod then "prod" else "uat"
      ensures r.Ok? <==>
        && environment in ["uat", "prod"]
        && customer in customers && Exists(versions, customers[customer], number)
        && verified && !adminPasswordMissing
        && (environment == "prod" ==> IsAccepted(events, customer, number))
      ensures r.Err? ==> (r.error ==
        if environment !in ["uat", "prod"] then UnknownEnvironment
        else if customer !in customers then CustomerNotFound
        else if !Exists(versions, customers[customer], number) then VersionNotFound
        else if !verified then NotVerified
        else if environment == "prod" && !IsAccepted(events, customer, number) then NotAccepted
        else AdminPasswordMissing)
      ensures r.Ok? && environment == "prod" ==>
        exists i :: 0 <= i < |events|
          && events[i].kind == Kind.Accept && events[i].customer == customer && events[i].version == number
      ensures r == Err(NotAccepted) ==>
        && environment == "prod"
        && forall i :: 0 <= i < |events| ==>
             !(events[i].kind == Kind.Accept && events[i].customer == customer && events[i].version == number)
      ensures r.Ok? ==>
        && r.value.project == customers[customer] && r.value.version in versions
        && versions[r.value.version].project == customers[customer] && versions[r.value.version].number == number
        && r.value.tag == (if r.value.first then "v1.0.0" else number)
      ensures r.Ok? && r.value.first ==>
        && environment == "prod"
        && forall i :: 0 <= i < |events| ==>
             !(events[i].kind == Kind.Deploy && events[i].environment == Prod && events[i].ok
               && events[i].project == customers[customer])
      ensures r.Ok? && environment == "prod" && !r.value.first ==>
        exists i :: 0 <= i < |events|
          && events[i].kind == Kind.Deploy && events[i].environment == Prod && events[i].ok
          && events[i].project == customers[customer]
    {
      if environment !in ["uat", "prod"] {
        return Err(UnknownEnvironment);
      }
      var env := if environment == "prod" then Prod else Uat;
      if customer !in customers {
        return Err(CustomerNotFound);
      }
      var project := customers[customer];
      if !Exists(versions, project, number) {
        return Err(VersionNotFound);
      }
      var version :| version in versions && Names(versions, project, number, version);
      if !verified {
        return Err(NotVerified);
      }
      if env == Prod && !IsAccepted(events, customer, number) {
        return Err(NotAccepted);
      }
      var first := env == Prod && !HadProdDeploy(events, project);
      assert forall i :: 0 <= i < |events| ==> events[i] in events;
      assert forall i :: 0 <= i < |events| && OkProd(events[i], project) ==> !first;
      if adminPasswordMissing {
        return Err(AdminPasswordMissing);
      }
      r := Ok(Ticket(customer, project, version, if first then FIRST_PROD_VERSION else number, env, first));
    }

    method GraduateInPlace(id: Id) returns (r: Result<(), Error>)
      modifies this`versions, this`events
      ensures r.Ok? <==> Graduate(old(View()), id).Ok?
      ensures r.Ok? ==> Ok(View()) == Graduate(old(View()), id)
      ensures r.Err? ==> View() == old(View()) && r.error == Graduate(old(View()), id).error
      ensures r.Ok? ==>
        && id in old(versions) && versions == old(versions)[id := Version(old(versions)[id].project, "v1.0.0", true)]
        && |events| == |old(events)|
        && forall i :: 0 <= i < |events| ==>
             var e := old(events)[i];
             events[i] ==
               if e.project == old(versions)[id].project && e.version == old(versions)[id].number
               then e.(version := "v1.0.0") else e
      ensures r == Err(GraduationClash) ==>
        && old(versions)[id].number != "v1.0.0"
        && exists x :: x in old(versions)
             && old(versions)[x].project == old(versions)[id].project && old(versions)[x].number == "v1.0.0"
      ensures r.Ok? && old(versions)[id].number != "v1.0.0" ==>
        forall x :: x in old(versions) ==>
          !(old(versions)[x].project == old(versions)[id].project && old(versions)[x].number == "v1.0.0")
    {
      if id !in versions {
        return Err(VersionNotFound);
      }
      var oldNumber := versions[id].number;
      if oldNumber != FIRST_PROD_VERSION {
        if Exists(versions, versions[id].project, FIRST_PROD_VERSION) {
          return Err(GraduationClash);
        }
        versions := versions[id := versions[id].(number := FIRST_PROD_VERSION)];
      }
      versions := versions[id := versions[id].(released := true)];
      assert versions == old(versions)[id := Version(old(versions[id]).project, FIRST_PROD_VERSION, true)];
      if oldNumber != FIRST_PROD_VERSION {
        events := Relabel(events, versions[id].project, oldNumber, FIRST_PROD_VERSION);
      }
      r := Ok(());
    }

    /** The rest of `deploy`, once the runner has returned; the second result is the graduated number. */
    method FinishDeploy(t: Ticket, ok: bool) returns (r: Result<(Event, Option<Label>), Error>)
      requires Coherent(View()) && TicketGood(View(), t)
      modifies this`versions, this`events
      ensures Coherent(View())
      ensures r.Ok? <==> Finish(old(View()), t, ok).Ok?
      ensures r.Ok? ==> Ok(View()) == Finish(old(View()), t, ok)
      ensures r.Ok? ==> r.value.0 == Event(t.customer, t.project, t.tag, t.environment, Kind.Deploy, ok)
      ensures r.Ok? ==> |events| == |old(events)| + 1 && r.value.0 == events[|events| - 1]
      ensures r.Ok? && !(t.first && ok) ==> versions == old(versions) && events == old(events) + [r.value.0]
      ensures r.Ok? && t.first && ok ==>
        && versions == old(versions)[t.version := Version(t.project, "v1.0.0", true)]
        && forall i :: 0 <= i < |old(events)| ==>
             var e := old(events)[i];
             events[i] ==
               if e.project == t.project && e.version == old(versions)[t.version].number
               then e.(version := "v1.0.0") else e
      ensures r.Ok? ==> r.value.1 == if t.first && ok then Some(FIRST_PROD_VERSION) else None
      ensures r.Err? ==> View() == old(View()) && r.error == Finish(old(View()), t, ok).error
    {
      if Finish(View(), t, ok).Ok? {
        FinishKeepsInv(View(), t, ok, map[]);
      }
      if t.first && ok {
        var g := GraduateInPlace(t.version);
        if g.Err? {
          return Err(g.error);
        }
      }
      var event := Event(t.customer, t.project, t.tag, t.environment, Kind.Deploy, ok);
      events := events + [event];
      r := Ok((event, if t.first && ok then Some(FIRST_PROD_VERSION) else None));
    }

    /** `deploy` undisturbed: a PROD deploy of an unaccepted version never reaches the log. */
    method Deploy(
        customer: Id, environment: string, number: Label, verified: bool, adminPasswordMissing: bool, runnerOk: bool)
      returns (r: Result<(Event, Option<Label>), Error>)
      requires Coherent(View()) && LabelsResolve(View())
      modifies this`versions, this`events
      ensures Coherent(View()) && LabelsResolve(View())
      ensures r.Err? ==> View() == old(View())
      ensures r.Ok? ==> customer in customers
      ensures r.Ok? && environment == "prod" ==>
        exists e :: e in old(events) && e.kind == Kind.Accept && e.customer == customer && e.version == number
      ensures r.Ok? ==>
        && r.value.0.customer == customer && r.value.0.project == customers[customer]
        && r.value.0.environment == (if environment == "prod" then Prod else Uat)
        && r.value.0.kind == Kind.Deploy && r.value.0.ok == runnerOk
      ensures r.Ok? && environment == "uat" ==> r.value.0.version == number
      ensures r.Ok? && environment == "prod" && r.value.0.version != number ==>
        && r.value.0.version == "v1.0.0"
        && forall e :: e in old(events) ==>
             !(e.kind == Kind.Deploy && e.environment == Prod && e.ok && e.project == customers[customer])
      ensures r.Ok? && environment == "prod" && r.value.0.version != "v1.0.0" ==>
        exists e :: e in old(events)
          && e.kind == Kind.Deploy && e.environment == Prod && e.ok && e.project == customers[customer]
      ensures r.Ok? ==> events != [] && r.value.0 == events[|events| - 1]
      ensures r.Ok? && runnerOk ==> CurrentVersion(events, customer, r.value.0.environment) == Some(r.value.0.version)
      ensures r.Ok? && r.value.1.Some? ==>
        !HadProdDeploy(old(events), customers[customer]) && HadProdDeploy(events, customers[customer])
    {
      var begun := BeginDeploy(customer, environment, number, verified, adminPasswordMissing);
      if begun.Err? {
        return Err(begun.error);
      }
      WholeKeepsLabels(View(), begun.value, number, runnerOk);
      r := FinishDeploy(begun.value, runnerOk);
      assert r.Ok? && runnerOk && r.value.0.environment == Prod ==>
        r.value.0 in events && OkProd(r.value.0, customers[customer]);
    }
  }
}
