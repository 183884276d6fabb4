/**
 * Token versions. A user's session row holds a version counter; a token carries the version it was issued with, and
 * every request compares the two. Runs mix logins, logouts, password changes, deactivation, creation and deletion of
 * users with direct writes to the session rows. Tokens are assumed unforgeable; password verification is a parameter
 * of the step.
 */
module TokenEpochs {
  import opened Prelude

  type Id = nat

  datatype User = User(hash: string, active: bool, senior: bool)

  /** The claims of a token: its user, its version if it carries one, and its expiry. */
  datatype Token = Token(user: Id, version: Option<nat>, expires: int)

  /**
   * `sessions` holds the versions of each user's session rows; every lookup of a user's row raises when there are
   * several. `used` holds every id ever given to a user; ids are never given again.
   */
  datatype State = State(users: map<Id, User>, sessions: map<Id, seq<nat>>, used: set<Id>)

  datatype Step =
    | Create(id: Id, user: User)
    | Login(id: Id, passwordOk: bool)
    | Logout(id: Id)
    | ChangePassword(id: Id, requester: Id, hash: string)
    | Update(id: Id, active: bool, senior: bool)
    | Delete(id: Id, referenced: bool)
    | AddSession(id: Id, version: nat)
    | SetVersion(id: Id, row: nat, version: nat)
    | DropSession(id: Id, row: nat)

  /** Rows belong to users, and users have ids that were given out. */
  predicate Sound(s: State) {
    s.users.Keys <= s.used && s.sessions.Keys <= s.users.Keys
  }

  function RowsOf(sessions: map<Id, seq<nat>>, id: Id): seq<nat> {
    if id in sessions then sessions[id] else []
  }

  function Rows(s: State, id: Id): seq<nat> {
    RowsOf(s.sessions, id)
  }

  /** The version of the only row; without a row counting starts at zero. */
  function Stored(s: State, id: Id): nat {
    if Rows(s, id) == [] then 0 else Rows(s, id)[0]
  }

  function Bumped(rows: seq<nat>): seq<nat> {
    if rows == [] then [1] else [rows[0] + 1]
  }

  predicate LoginOk(s: State, id: Id, passwordOk: bool) {
    id in s.users && passwordOk && s.users[id].active && |Rows(s, id)| <= 1
  }

  /** A senior may change any password, everyone else only their own. */
  predicate MayChange(s: State, id: Id, requester: Id) {
    && requester in s.users && (s.users[requester].senior || requester == id)
    && id in s.users && |Rows(s, id)| <= 1
  }

  function WithRows(s: State, id: Id, rows: seq<nat>): State {
    s.(sessions := s.sessions[id := rows])
  }

  /** An operation that is refused, or that raises, leaves everything as it was. */
  function Next(s: State, step: Step): State {
    match step
    case Create(id, user) =>
      if id in s.used then s
      else State(s.users[id := user], s.sessions[id := [0]], s.used + {id})
    case Login(id, passwordOk) =>
      if LoginOk(s, id, passwordOk) then WithRows(s, id, Bumped(Rows(s, id))) else s
    case Logout(id) =>
      if |Rows(s, id)| == 1 then WithRows(s, id, Bumped(Rows(s, id))) else s
    case ChangePassword(id, requester, hash) =>
      if MayChange(s, id, requester)
      then WithRows(s, id, Bumped(Rows(s, id))).(users := s.users[id := s.users[id].(hash := hash)])
      else s
    case Update(id, active, senior) =>
      if id in s.users then s.(users := s.users[id := s.users[id].(active := active, senior := senior)]) else s
    case Delete(id, referenced) =>
      if id in s.users && !referenced then s.(users := s.users - {id}, sessions := s.sessions - {id}) else s
    case AddSession(id, version) =>
      if id in s.users then WithRows(s, id, Rows(s, id) + [version]) else s
    case SetVersion(id, row, version) =>
      if row < |Rows(s, id)| then WithRows(s, id, Rows(s, id)[row := version]) else s
    case DropSession(id, row) =>
      if row < |Rows(s, id)| then WithRows(s, id, Rows(s, id)[..row] + Rows(s, id)[row + 1..]) else s
  }

  /** Nothing but this user, and their rows, may be different. */
  predicate OthersSame(s: State, t: State, id: Id) {
    && t.users - {id} == s.users - {id} && t.sessions - {id} == s.sessions - {id}
  }

  /** An update sets the two flags of a known user and keeps the password and the rows. */
  lemma UserUpdated(s: State, id: Id, active: bool, senior: bool)
    ensures
      var t := Next(s, Update(id, active, senior));
      && (id !in s.users ==> t == s)
      && (id in s.users ==> id in t.users && t.users[id] == User(s.users[id].hash, active, senior))
      && OthersSame(s, t, id) && t.sessions == s.sessions && t.used == s.used
  {
  }

  /** A user that nothing refers to is deleted with all rows; nobody else is, and no id becomes free again. */
  lemma UserDeleted(s: State, id: Id, referenced: bool)
    ensures
      var t := Next(s, Delete(id, referenced));
      && (id !in s.users || referenced ==> t == s)
      && (id in s.users && !referenced ==> id !in t.users && Rows(t, id) == [])
      && OthersSame(s, t, id) && t.used == s.used
  {
  }

  /** The step is a login, a logout or a password change of this user, and it is let through. */
  predicate Ends(s: State, step: Step, id: Id) {
    match step
    case Login(u, passwordOk) => u == id && LoginOk(s, u, passwordOk)
    case Logout(u) => u == id && |Rows(s, u)| == 1
    case ChangePassword(u, requester, _) => u == id && MayChange(s, u, requester)
    case _ => false
  }

  /** The step writes to this user's session rows directly. */
  predicate Writes(step: Step, id: Id) {
    (step.AddSession? || step.SetVersion? || step.DropSession?) && step.id == id
  }

  predicate NoWrites(steps: seq<Step>, id: Id) {
    forall i :: 0 <= i < |steps| ==> !Writes(steps[i], id)
  }

  function Run(s: State, steps: seq<Step>): State
    decreases |steps|
  {
    if steps == [] then s else Run(Next(s, steps[0]), steps[1..])
  }

  /** How many logins, logouts and password changes of a user a run contains. */
  function Endings(s: State, steps: seq<Step>, id: Id): nat
    decreases |steps|
  {
    if steps == [] then 0
    else (if Ends(s, steps[0], id) then 1 else 0) + Endings(Next(s, steps[0]), steps[1..], id)
  }

  /** The state right after the last direct write to a user's rows, or else the first one, and the steps since. */
  function SinceWrite(s: State, steps: seq<Step>, id: Id): (State, seq<Step>)
    decreases |steps|
  {
    if NoWrites(steps, id) then (s, steps) else SinceWrite(Next(s, steps[0]), steps[1..], id)
  }

  /** The version that the last direct write left behind, and what ended sessions since. */
  function Level(s: State, steps: seq<Step>, id: Id): nat {
    var (written, since) := SinceWrite(s, steps, id);
    Stored(written, id) + Endings(written, since, id)
  }

  /** The last direct write left at most one row. */
  predicate Single(s: State, steps: seq<Step>, id: Id) {
    |Rows(SinceWrite(s, steps, id).0, id)| <= 1
  }

  /** `get_current_user`: the token is accepted. */
  predicate Accepted(s: State, token: Token, now: int) {
    && now <= token.expires
    && (token.version.Some? ==> |Rows(s, token.user)| <= 1 && token.version.value >= Stored(s, token.user))
    && token.user in s.users && s.users[token.user].active
  }

  /** A token as it is issued now: by `login` after its bump, or by `refresh_session`. */
  predicate Issued(s: State, token: Token) {
    |Rows(s, token.user)| == 1 && token.version == Some(Stored(s, token.user))
  }

  // ---------------------------------------------------------------- the service

  class AuthService {
    var users: map<Id, User>
    var sessions: map<Id, seq<nat>>
    ghost var used: set<Id>

    ghost function Value(): State
      reads this
    {
      State(users, sessions, used)
    }

    /** `_bump_token_version`; nothing, and no change, where the lookup finds several rows and raises. */
    method BumpTokenVersion(id: Id) returns (version: Option<nat>)
      modifies this`sessions
      ensures version.Some? <==> |RowsOf(old(sessions), id)| <= 1
      ensures version.None? ==> sessions == old(sessions)
      ensures version.Some? ==>
        sessions == old(sessions)[id := Bumped(RowsOf(old(sessions), id))] && sessions[id] == [version.value]
    {
      var rows := RowsOf(sessions, id);
      if |rows| > 1 {
        return None;
      }
      if rows == [] {
        sessions := sessions[id := [1]];
        return Some(1);
      }
      sessions := sessions[id := [rows[0] + 1]];
      version := Some(rows[0] + 1);
    }

    /** `login`: a bump, then a token with the new version. */
    method DoLogin(id: Id, passwordOk: bool, now: int, minutes: nat) returns (token: Option<Token>)
      modifies this`sessions
      ensures Value() == Next(old(Value()), Login(id, passwordOk))
      ensures token.Some? <==> LoginOk(old(Value()), id, passwordOk)
      ensures token.Some? ==>
        token.value.user == id && token.value.expires == now + minutes && Issued(Value(), token.value)
      ensures token.Some? <==>
        id in users && passwordOk && users[id].active && (id in old(sessions) ==> |old(sessions)[id]| <= 1)
      ensures token.None? ==> sessions == old(sessions)
      ensures token.Some? ==>
        && token.value.version ==
             (if id in old(sessions) && old(sessions)[id] != [] then Some(old(sessions)[id][0] + 1) else Some(1))
        && sessions == old(sessions)[id := [token.value.version.value]]
    {
      if id !in users || !passwordOk || !users[id].active {
        return None;
      }
      var version := BumpTokenVersion(id);
      if version.None? {
        return None;
      }
      token := Some(Token(id, version, now + minutes));
    }

    /** `refresh_session`: a token with the same version; refused unless there is one session row. */
    method RefreshSession(id: Id, now: int, minutes: nat) returns (token: Option<Token>)
      ensures token.Some? <==> |Rows(Value(), id)| == 1
      ensures token.Some? ==>
        token.value.user == id && token.value.expires == now + minutes && Issued(Value(), token.value)
      ensures token.Some? <==> id in sessions && |sessions[id]| == 1
      ensures token.Some? ==> token.value.version == Some(sessions[id][0])
    {
      var rows := RowsOf(sessions, id);
      if |rows| != 1 {
        return None;
      }
      token := Some(Token(id, Some(rows[0]), now + minutes));
    }

    /** `logout`. */
    method DoLogout(id: Id) returns (ok: bool)
      modifies this`sessions
      ensures Value() == Next(old(Value()), Logout(id)) && (ok <==> |Rows(old(Value()), id)| == 1)
      ensures ok <==> id in old(sessions) && |old(sessions)[id]| == 1
      ensures sessions == if ok then old(sessions)[id := [old(sessions)[id][0] + 1]] else old(sessions)
    {
      var rows := RowsOf(sessions, id);
      ok := |rows| == 1;
      if ok {
        sessions := sessions[id := [rows[0] + 1]];
      }
    }

    /** `change_password`; where the bump raises, the request is rolled back and the old hash stays. */
    method DoChangePassword(id: Id, requester: Id, hash: string) returns (ok: bool)
      requires requester in users
      modifies this`users, this`sessions
      ensures Value() == Next(old(Value()), ChangePassword(id, requester, hash))
      ensures ok <==> MayChange(old(Value()), id, requester)
      ensures ok <==>
        && id in old(users) && (old(users)[requester].senior || requester == id)
        && (id in old(sessions) ==> |old(sessions)[id]| <= 1)
      ensures !ok ==> users == old(users) && sessions == old(sessions)
      ensures ok ==>
        && users == old(users)[id := User(hash, old(users)[id].active, old(users)[id].senior)]
        && sessions == old(sessions)[id :=
             [if id in old(sessions) && old(sessions)[id] != [] then old(sessions)[id][0] + 1 else 1]]
    {
      if !users[requester].senior && requester != id {
        return false;
      }
      if id !in users {
        return false;
      }
      var version := BumpTokenVersion(id);
      if version.None? {
        return false;
      }
      users := users[id := users[id].(hash := hash)];
      ok := true;
    }

    /** `create`: the session row starts at version zero. */
    method CreateUser(id: Id, user: User)
      requires id !in used
      modifies this
      ensures Value() == Next(old(Value()), Create(id, user))
      ensures users == old(users)[id := user] && sessions == old(sessions)[id := [0]]
    {
      users, sessions := users[id := user], sessions[id := [0]];
      used := used + {id};
    }

    /** `user_session.create`: the foreign key demands the user. */
    method CreateSession(id: Id, version: nat) returns (ok: bool)
      modifies this`sessions
      ensures Value() == Next(old(Value()), AddSession(id, version)) && (ok <==> id in users)
      ensures !ok ==> sessions == old(sessions)
      ensures ok ==>
        sessions == old(sessions)[id := (if id in old(sessions) then old(sessions)[id] else []) + [version]]
    {
      ok := id in users;
      if ok {
        sessions := sessions[id := RowsOf(sessions, id) + [version]];
      }
    }

    /** `user_session.update`: any version, higher or lower. */
    method UpdateSession(id: Id, row: nat, version: nat) returns (ok: bool)
      modifies this`sessions
      ensures Value() == Next(old(Value()), SetVersion(id, row, version))
      ensures ok <==> row < |Rows(old(Value()), id)|
      ensures ok <==> id in old(sessions) && row < |old(sessions)[id]|
      ensures !ok ==> sessions == old(sessions)
      ensures ok ==>
        && id in sessions && sessions[id] == old(sessions)[id][row := version]
        && sessions == old(sessions)[id := sessions[id]]
    {
      var rows := RowsOf(sessions, id);
      ok := row < |rows|;
      if ok {
        sessions := sessions[id := rows[row := version]];
      }
    }

    /** `user_session.delete`. */
    method DeleteSession(id: Id, row: nat) returns (ok: bool)
      modifies this`sessions
      ensures Value() == Next(old(Value()), DropSession(id, row))
      ensures ok <==> row < |Rows(old(Value()), id)|
      ensures ok <==> id in old(sessions) && row < |old(sessions)[id]|
      ensures !ok ==> sessions == old(sessions)
      ensures ok ==>
        && id in sessions && sessions[id] == old(sessions)[id][..row] + old(sessions)[id][row + 1..]
        && sessions == old(sessions)[id := sessions[id]]
    {
      var rows := RowsOf(sessions, id);
      ok := row < |rows|;
      if ok {
        sessions := sessions[id := rows[..row] + rows[row + 1..]];
      }
    }

    /** `get_current_user`; a raised error refuses the request as well. */
    method GetCurrentUser(token: Token, now: int) returns (user: Option<Id>)
      ensures user == if Accepted(Value(), token, now) then Some(token.user) else None
      ensures user.Some? <==>
        && now <= token.expires && token.user in users && users[token.user].active
        && (token.version.Some? && token.user in sessions && sessions[token.user] != [] ==>
              |sessions[token.user]| == 1 && sessions[token.user][0] <= token.version.value)
    {
      if token.expires < now {
        return None;
      }
      if token.version.Some? {
        var rows := RowsOf(sessions, token.user);
        if |rows| > 1 {
          return None;
        }
        if rows != [] && token.version.value < rows[0] {
          return None;
        }
      }
      if token.user !in users || !users[token.user].active {
        return None;
      }
      user := Some(token.user);
    }
  }

  // ---------------------------------------------------------------- runs

  /** One step that is no direct write: a deleted user stays away, several rows stay, a single one counts endings. */
  lemma StepCounts(s: State, step: Step, id: Id)
    requires Sound(s) && id in s.used
    ensures Sound(Next(s, step)) && id in Next(s, step).used && (id !in s.users ==> id !in Next(s, step).users)
    ensures id in Next(s, step).users && !Writes(step, id) ==>
      if |Rows(s, id)| > 1 then Rows(Next(s, step), id) == Rows(s, id)
      else
        && |Rows(Next(s, step), id)| <= 1
        && Stored(Next(s, step), id) == Stored(s, id) + (if Ends(s, step, id) then 1 else 0)
    ensures |Rows(s, id)| > 1 ==> !Ends(s, step, id)
  {
  }

  /** The stored version counts what ended sessions since the last direct write; a deleted user never comes back. */
  lemma {:induction false} VersionCounts(s: State, steps: seq<Step>, id: Id)
    requires Sound(s) && id in s.used
    ensures Sound(Run(s, steps)) && id in Run(s, steps).used
    ensures id !in s.users ==> id !in Run(s, steps).users
    ensures id in Run(s, steps).users ==>
      && (|Rows(Run(s, steps), id)| <= 1 <==> Single(s, steps, id))
      && (Single(s, steps, id) ==> Stored(Run(s, steps), id) == Level(s, steps, id))
    decreases |steps|
  {
    if steps != [] {
      StepCounts(s, steps[0], id);
      VersionCounts(Next(s, steps[0]), steps[1..], id);
      if NoWrites(steps, id) {
        assert !Writes(steps[0], id) && NoWrites(steps[1..], id);
      }
    }
  }

  /** Without direct writes the level is the number of endings above the stored version. */
  lemma LevelWithoutWrites(s: State, steps: seq<Step>, id: Id)
    requires NoWrites(steps, id)
    ensures Level(s, steps, id) == Stored(s, id) + Endings(s, steps, id)
    ensures Single(s, steps, id) <==> |Rows(s, id)| <= 1
  {
  }

  /**
   * After any run a token is at most at the stored version exactly when it is at most at the level; and so it always
   * is when nobody wrote to the user's session rows directly.
   */
  lemma IssuedAtMostStored(s: State, steps: seq<Step>, token: Token)
    requires Sound(s) && Issued(s, token) && token.user in Run(s, steps).users && Single(s, steps, token.user)
    ensures token.version.value <= Stored(Run(s, steps), token.user)
      <==> token.version.value <= Level(s, steps, token.user)
    ensures NoWrites(steps, token.user) ==> token.version.value <= Stored(Run(s, steps), token.user)
  {
    VersionCounts(s, steps, token.user);
    if NoWrites(steps, token.user) {
      LevelWithoutWrites(s, steps, token.user);
    }
  }

  /**
   * After any run, a token is accepted exactly when it has not expired, its user exists and is active, and the last
   * direct write to the user's session rows left at most one, whose version with the logins, logouts and password
   * changes since is not above the token's. Without direct writes: when there was none of these at all.
   */
  lemma AcceptedIff(s: State, steps: seq<Step>, token: Token, now: int)
    requires Sound(s) && Issued(s, token)
    ensures
      var r := Run(s, steps);
      Accepted(r, token, now) <==>
        && now <= token.expires && token.user in r.users && r.users[token.user].active
        && Single(s, steps, token.user) && Level(s, steps, token.user) <= token.version.value
    ensures NoWrites(steps, token.user) ==>
      (Single(s, steps, token.user) && Level(s, steps, token.user) <= token.version.value
       <==> Endings(s, steps, token.user) == 0)
  {
    VersionCounts(s, steps, token.user);
    if NoWrites(steps, token.user) {
      LevelWithoutWrites(s, steps, token.user);
    }
  }

  /** A revoked token lives again once its session row is dropped, or set back to its version. */
  lemma RevokedTokenRevived(s: State, token: Token, now: int)
    requires token.user in s.users && s.users[token.user].active && now <= token.expires && token.version.Some?
    requires |Rows(s, token.user)| == 1 && token.version.value < Stored(s, token.user)
    ensures !Accepted(s, token, now)
    ensures Accepted(Next(s, DropSession(token.user, 0)), token, now)
    ensures Accepted(Next(s, SetVersion(token.user, 0, token.version.value)), token, now)
  {
    assert Rows(Next(s, DropSession(token.user, 0)), token.user) == [];
  }

  /** A second session row locks its user out: no versioned token and no login is accepted until a row is dropped. */
  lemma {:induction false} SecondRowLocksOut(s: State, steps: seq<Step>, token: Token, now: int, passwordOk: bool)
    requires Sound(s) && token.user in s.used && |Rows(s, token.user)| > 1 && token.version.Some?
    requires forall i :: 0 <= i < |steps| ==> !(steps[i].DropSession? && steps[i].id == token.user)
    ensures !Accepted(Run(s, steps), token, now) && !LoginOk(Run(s, steps), token.user, passwordOk)
    decreases |steps|
  {
    if steps != [] {
      StepCounts(s, steps[0], token.user);
      var t := Next(s, steps[0]);
      if token.user in t.users {
        SecondRowLocksOut(t, steps[1..], token, now, passwordOk);
      } else {
        VersionCounts(t, steps[1..], token.user);
      }
    }
  }

  /**
   * A refresh while a token is accepted gives one that is never above it, and exactly at it if nobody wrote to the
   * session rows in between. Whenever the new one is accepted later, so would the old one be with the later expiry;
   * and with equal versions both agree.
   */
  lemma RefreshPreserves(
      s: State, before: seq<Step>, token: Token, now: int, renewed: Token, after: seq<Step>, later: int)
    requires Sound(s) && Issued(s, token) && Accepted(Run(s, before), token, now)
    requires Issued(Run(s, before), renewed) && renewed.user == token.user
    ensures renewed.version.value <= token.version.value
    ensures NoWrites(before, token.user) ==> renewed.version == token.version
    ensures
      var r, same := Run(Run(s, before), after), token.(expires := renewed.expires);
      && (Accepted(r, renewed, later) ==> Accepted(r, same, later))
      && (NoWrites(before, token.user) ==> (Accepted(r, renewed, later) <==> Accepted(r, same, later)))
  {
    VersionCounts(s, before, token.user);
    if NoWrites(before, token.user) {
      LevelWithoutWrites(s, before, token.user);
    }
  }
}
