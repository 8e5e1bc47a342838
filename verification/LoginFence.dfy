/**
 Logins against password changes, resets and bans (backend/auth.go, backend/admin.go). A login reads the
 account and checks the password first, and creates its session later, in a transaction that locks the
 account row; the others are transactions that change the row and revoke the sessions.
 Every transaction is one step. Hashes are opaque texts; session ids are never used twice.
 */
module LoginFence {
  import opened Options

  type UserId = nat
  type SessionId = nat
  type Pid = nat
  type Hash = string

  const NORMAL: int := 1

  /** `resets` counts the password changes, password resets and disablings that have committed. */
  datatype Account = Account(hash: Hash, status: int, admin: bool, resets: nat)

  /**
   How a session came about: by a login, or by a registration or a change of name, which create theirs
   outside the lock, after a transaction that committed when the account had `asOf` resets.
   */
  datatype Origin = Login(hash: Hash) | Unlocked(asOf: nat)

  /** `since` is the account's count of resets when the session was created. */
  datatype Session = Session(user: UserId, origin: Origin, since: nat, revoked: bool)

  /** A request between its steps: it has checked a password against the hash it read, or owes a session. */
  datatype Pending = Verified(user: UserId, hash: Hash) | Changing(user: UserId) | Owing(user: UserId, asOf: nat)

  datatype State = State(
    accounts: map<UserId, Account>,
    sessions: map<SessionId, Session>,
    pending: map<Pid, Pending>)

  datatype Step =
    | Register(pid: Pid, user: UserId, hash: Hash)
    | CheckPassword(pid: Pid, user: UserId, matches: bool)
    | CommitLogin(pid: Pid, session: SessionId)
    | CheckOldPassword(pid: Pid, user: UserId, matches: bool)
    | CommitChange(pid: Pid, hash: Hash)
    | AdminPassword(user: UserId, hash: Hash)
    | AdminUpdate(user: UserId, rename: bool, status: Option<int>)
    | Rename(pid: Pid, user: UserId)
    | CreateUnlocked(pid: Pid, session: SessionId)
    | Logout(session: SessionId)

  const INIT := State(map[], map[], map[])

  /** revokeSessions: every session of the user that is not revoked yet. */
  function Revoked(sessions: map<SessionId, Session>, user: UserId): map<SessionId, Session> {
    map id | id in sessions :: if sessions[id].user == user then sessions[id].(revoked := true) else sessions[id]
  }

  function Next(s: State, step: Step): State {
    match step
    case Register(pid, user, hash) =>
      if user in s.accounts || pid in s.pending then s
      else s.(accounts := s.accounts[user := Account(hash, NORMAL, false, 0)],
              pending := s.pending[pid := Owing(user, 0)])
    case CheckPassword(pid, user, matches) =>
      if pid in s.pending || user !in s.accounts || !matches then s
      else s.(pending := s.pending[pid := Verified(user, s.accounts[user].hash)])
    case CommitLogin(pid, id) =>
      if pid !in s.pending || !s.pending[pid].Verified? || id in s.sessions then s
      else
        var Verified(user, hash) := s.pending[pid];
        var t := s.(pending := s.pending - {pid});
        if user !in s.accounts || s.accounts[user].status != NORMAL || s.accounts[user].hash != hash then t
        else t.(sessions := s.sessions[id := Session(user, Login(hash), s.accounts[user].resets, false)])
    case CheckOldPassword(pid, user, matches) =>
      if pid in s.pending || user !in s.accounts || !matches then s
      else s.(pending := s.pending[pid := Changing(user)])
    case CommitChange(pid, hash) =>
      if pid !in s.pending || !s.pending[pid].Changing? then s
      else
        // The old password is not checked again.
        SetHash(s.(pending := s.pending - {pid}), s.pending[pid].user, hash)
    case AdminPassword(user, hash) => SetHash(s, user, hash)
    case AdminUpdate(user, rename, status) =>
      if user !in s.accounts then s
      else
        var a := s.accounts[user];
        var disables := status.Some? && status.value != NORMAL;
        if disables && a.admin then s
        else s.(accounts := s.accounts[user := a.(status := if status.Some? then status.value else a.status,
                                                  resets := if disables then a.resets + 1 else a.resets)],
                sessions := if rename || disables then Revoked(s.sessions, user) else s.sessions)
    case Rename(pid, user) =>
      if user !in s.accounts || pid in s.pending then s
      else s.(sessions := Revoked(s.sessions, user), pending := s.pending[pid := Owing(user, s.accounts[user].resets)])
    case CreateUnlocked(pid, id) =>
      if pid !in s.pending || !s.pending[pid].Owing? || id in s.sessions then s
      else
        var Owing(user, asOf) := s.pending[pid];
        var t := s.(pending := s.pending - {pid});
        if user !in s.accounts then t
        else t.(sessions := s.sessions[id := Session(user, Unlocked(asOf), s.accounts[user].resets, false)])
    case Logout(id) =>
      if id in s.sessions then s.(sessions := s.sessions[id := s.sessions[id].(revoked := true)]) else s
  }

  function SetHash(s: State, user: UserId, hash: Hash): State {
    if user !in s.accounts then s
    else
      var a := s.accounts[user];
      s.(accounts := s.accounts[user := a.(hash := hash, resets := a.resets + 1)],
         sessions := Revoked(s.sessions, user))
  }

  // ---------------------------------------------------------------------------------------------
  // The transactions
  // ---------------------------------------------------------------------------------------------

  class Database {
    var accounts: map<UserId, Account>
    var sessions: map<SessionId, Session>
    var pending: map<Pid, Pending>

    ghost function Contents(): State
      reads this
    {
      State(accounts, sessions, pending)
    }

    constructor ()
      ensures Contents() == INIT
    {
      accounts, sessions, pending := map[], map[], map[];
    }

    /** Reads the ids of the sessions that are not revoked yet, then revokes those. */
    method RevokeSessions(user: UserId) returns (ids: set<SessionId>)
      modifies this`sessions
      ensures sessions == Revoked(old(sessions), user)
      ensures ids == set id | id in old(sessions) && old(sessions)[id].user == user && !old(sessions)[id].revoked
    {
      ids := set id | id in sessions && sessions[id].user == user && !sessions[id].revoked;
      assert forall id | id in sessions && sessions[id].user == user :: id in ids || sessions[id].revoked;
      if ids != {} {
        sessions := map id | id in sessions :: if id in ids then sessions[id].(revoked := true) else sessions[id];
      } else {
        assert forall id | id in sessions && sessions[id].user == user ::
          sessions[id].(revoked := true) == sessions[id];
      }
    }

    /** The second half of a login: true when it created its session. */
    method CommitLogin(pid: Pid, id: SessionId) returns (created: bool)
      requires pid in pending && pending[pid].Verified? && id !in sessions
      modifies this
      ensures Contents() == Next(old(Contents()), Step.CommitLogin(pid, id))
      ensures created <==> id in sessions
    {
      var Verified(user, hash) := pending[pid];
      pending := pending - {pid};
      if user !in accounts {
        return false;
      }
      var account := accounts[user];
      if account.status != NORMAL {
        return false;
      }
      if account.hash != hash {
        return false;
      }
      sessions := sessions[id := Session(user, Login(hash), account.resets, false)];
      created := true;
    }

    method CommitChange(pid: Pid, hash: Hash) returns (revoked: set<SessionId>)
      requires pid in pending && pending[pid].Changing?
      modifies this
      ensures Contents() == Next(old(Contents()), Step.CommitChange(pid, hash))
    {
      var user := pending[pid].user;
      pending := pending - {pid};
      revoked := {};
      if user in accounts {
        accounts := accounts[user := accounts[user].(hash := hash, resets := accounts[user].resets + 1)];
        revoked := RevokeSessions(user);
      }
    }

    /** False when there is no such account. */
    method AdminPassword(user: UserId, hash: Hash) returns (ok: bool, revoked: set<SessionId>)
      modifies this
      ensures Contents() == Next(old(Contents()), Step.AdminPassword(user, hash))
      ensures ok <==> user in accounts
    {
      if user !in accounts {
        return false, {};
      }
      accounts := accounts[user := accounts[user].(hash := hash, resets := accounts[user].resets + 1)];
      revoked := RevokeSessions(user);
      ok := true;
    }

    /** False when there is no such account or it is a protected administrator. */
    method AdminUpdateUser(user: UserId, rename: bool, status: Option<int>) returns (ok: bool, revoked: set<SessionId>)
      modifies this
      ensures Contents() == Next(old(Contents()), Step.AdminUpdate(user, rename, status))
      ensures ok <==> user in accounts && !(status.Some? && status.value != NORMAL && accounts[user].admin)
    {
      revoked := {};
      if user !in accounts {
        return false, revoked;
      }
      var account := accounts[user];
      if status.Some? && status.value != NORMAL && account.admin {
        return false, revoked;
      }
      if status.Some? {
        account := account.(status := status.value);
        if status.value != NORMAL {
          account := account.(resets := account.resets + 1);
        }
      }
      accounts := accounts[user := account];
      if rename || (status.Some? && status.value != NORMAL) {
        revoked := RevokeSessions(user);
      }
      ok := true;
    }
  }

  function Run(s: State, steps: seq<Step>): State
    decreases |steps|
  {
    if steps == [] then s else Run(Next(s, steps[0]), steps[1..])
  }

  /**
   Nothing has reset the account of a live session since the session was created. One created by a login
   was created under the account's present hash; the request of another had read the account no later.
   */
  ghost predicate Current(s: State, x: Session) {
    !x.revoked ==>
      && x.user in s.accounts
      && s.accounts[x.user].resets == x.since
      && match x.origin {
           case Login(hash) => s.accounts[x.user].hash == hash && s.accounts[x.user].status == NORMAL
           case Unlocked(asOf) => asOf <= x.since
         }
  }

  ghost predicate Owed(s: State, p: Pending) {
    p.Owing? ==> p.user in s.accounts && p.asOf <= s.accounts[p.user].resets
  }

  ghost predicate Inv(s: State) {
    && (forall id | id in s.sessions :: Current(s, s.sessions[id]))
    && (forall pid | pid in s.pending :: Owed(s, s.pending[pid]))
  }

  lemma ResetKeeps(s: State, user: UserId, hash: Hash)
    requires Inv(s)
    ensures Inv(SetHash(s, user, hash))
  {
    var t := SetHash(s, user, hash);
    forall id | id in t.sessions ensures Current(t, t.sessions[id]) {
      assert Current(s, s.sessions[id]);
    }
    forall pid | pid in t.pending ensures Owed(t, t.pending[pid]) {
      assert Owed(s, s.pending[pid]);
    }
  }

  lemma StepKeepsOwed(s: State, step: Step)
    requires Inv(s)
    ensures forall pid | pid in Next(s, step).pending :: Owed(Next(s, step), Next(s, step).pending[pid])
  {
    var t := Next(s, step);
    forall pid | pid in t.pending ensures Owed(t, t.pending[pid]) {
      assert pid in s.pending ==> Owed(s, s.pending[pid]);
    }
  }

  lemma StepKeeps(s: State, step: Step)
    requires Inv(s)
    ensures Inv(Next(s, step))
  {
    var t := Next(s, step);
    match step {
      case CommitChange(pid, hash) =>
        if pid in s.pending && s.pending[pid].Changing? {
          ResetKeeps(s.(pending := s.pending - {pid}), s.pending[pid].user, hash);
        }
      case AdminPassword(user, hash) => ResetKeeps(s, user, hash);
      case _ =>
        StepKeepsOwed(s, step);
        forall id | id in t.sessions ensures Current(t, t.sessions[id]) {
          assert id in s.sessions ==> Current(s, s.sessions[id]);
        }
    }
  }

  lemma {:induction false} RunKeeps(s: State, steps: seq<Step>)
    requires Inv(s)
    ensures Inv(Run(s, steps))
    decreases |steps|
  {
    hide Inv, Next;
    if steps != [] {
      StepKeeps(s, steps[0]);
      RunKeeps(Next(s, steps[0]), steps[1..]);
    }
  }

  /**
   Main result. In every interleaving a live session created by a login was created under the account's
   present hash, the account is in normal state, and no password change, reset or disabling has committed
   since.
   */
  lemma LoginSessionsAreCurrent(steps: seq<Step>, id: SessionId)
    requires var s := Run(INIT, steps); id in s.sessions && s.sessions[id].origin.Login? && !s.sessions[id].revoked
    ensures var s := Run(INIT, steps);
            var x := s.sessions[id];
            && x.user in s.accounts
            && s.accounts[x.user] == Account(x.origin.hash, 1, s.accounts[x.user].admin, x.since)
  {
    RunKeeps(INIT, steps);
    var s := Run(INIT, steps);
    assert Current(s, s.sessions[id]);
  }

  // ---------------------------------------------------------------------------------------------
  // What revokes, and for how long
  // ---------------------------------------------------------------------------------------------

  /** The step changes the password, disables or renames the user, and is not refused. */
  ghost predicate Revokes(s: State, step: Step, user: UserId) {
    user in s.accounts &&
    match step
    case AdminPassword(u, _) => u == user
    case CommitChange(pid, _) => pid in s.pending && s.pending[pid] == Changing(user)
    case Rename(pid, u) => u == user && pid !in s.pending
    case AdminUpdate(u, rename, status) =>
      var disables := status.Some? && status.value != 1;
      u == user && (rename || disables) && !(disables && s.accounts[user].admin)
    case _ => false
  }

  /** Such a step revokes every session of that user, and no step but a logout revokes any other. */
  lemma RevokesIff(s: State, step: Step, id: SessionId)
    requires id in s.sessions && !s.sessions[id].revoked
    ensures id in Next(s, step).sessions
    ensures Next(s, step).sessions[id].revoked <==>
            step == Logout(id) || Revokes(s, step, s.sessions[id].user)
  {
  }

  lemma {:induction false} RevokedStays(s: State, steps: seq<Step>, id: SessionId)
    requires id in s.sessions && s.sessions[id].revoked
    ensures id in Run(s, steps).sessions && Run(s, steps).sessions[id].revoked
    decreases |steps|
  {
    if steps != [] {
      RevokedStays(Next(s, steps[0]), steps[1..], id);
    }
  }

  /** No session from before a password change, a disabling or a change of name is ever live again. */
  lemma EarlierSessionsStayDead(s: State, step: Step, user: UserId, later: seq<Step>, id: SessionId)
    requires Revokes(s, step, user) && id in s.sessions && s.sessions[id].user == user
    ensures var t := Run(Next(s, step), later); id in t.sessions && t.sessions[id].revoked
  {
    RevokedStays(Next(s, step), later, id);
  }

  /** A new password is what the account then has; a new status too, unless it would disable an administrator. */
  lemma AccountAfter(s: State, user: UserId, hash: Hash, rename: bool, status: Option<int>)
    requires user in s.accounts
    ensures var t := Next(s, AdminPassword(user, hash));
            user in t.accounts && t.accounts[user] == s.accounts[user].(hash := hash, resets := t.accounts[user].resets)
    ensures var t := Next(s, AdminUpdate(user, rename, status));
            var refused := status.Some? && status.value != 1 && s.accounts[user].admin;
            && (refused ==> t == s)
            && user in t.accounts && t.accounts[user].hash == s.accounts[user].hash
            && (!refused && status.Some? ==> t.accounts[user].status == status.value)
            && (status.None? ==> t.accounts[user].status == s.accounts[user].status)
  {
  }

  predicate Enables(step: Step, user: UserId) {
    step.AdminUpdate? && step.user == user && step.status == Some(1)
  }

  lemma {:induction false} StaysDisabled(s: State, steps: seq<Step>, user: UserId)
    requires user in s.accounts && s.accounts[user].status != 1 && forall step | step in steps :: !Enables(step, user)
    ensures user in Run(s, steps).accounts && Run(s, steps).accounts[user].status != 1
    decreases |steps|
  {
    if steps != [] {
      assert steps[0] in steps;
      StaysDisabled(Next(s, steps[0]), steps[1..], user);
    }
  }

  /**
   After an account is disabled, and until it is enabled again, no login to it succeeds, not even one that
   had checked its password before; and none of its logins is live.
   */
  lemma NoLoginWhileDisabled(before: seq<Step>, user: UserId, rename: bool, status: int, later: seq<Step>)
    requires var s := Run(INIT, before); user in s.accounts && !s.accounts[user].admin
    requires status != 1 && forall step | step in later :: !Enables(step, user)
    ensures var t := Run(Next(Run(INIT, before), AdminUpdate(user, rename, Some(status))), later);
            && (forall id | id in t.sessions && t.sessions[id].user == user && t.sessions[id].origin.Login? ::
                  t.sessions[id].revoked)
            && forall pid, id | pid in t.pending && t.pending[pid].Verified? && t.pending[pid].user == user ::
                 Next(t, CommitLogin(pid, id)).sessions == t.sessions
  {
    var s := Next(Run(INIT, before), AdminUpdate(user, rename, Some(status)));
    RunKeeps(INIT, before);
    StepKeeps(Run(INIT, before), AdminUpdate(user, rename, Some(status)));
    RunKeeps(s, later);
    StaysDisabled(s, later, user);
    var t := Run(s, later);
    forall id | id in t.sessions ensures Current(t, t.sessions[id]) {
    }
  }

  /** An undisturbed login creates a live session exactly when the password matches and the account is in use. */
  lemma LoginAloneIff(s: State, pid: Pid, user: UserId, matches: bool, id: SessionId)
    requires pid !in s.pending && id !in s.sessions
    ensures var t := Next(Next(s, CheckPassword(pid, user, matches)), CommitLogin(pid, id));
            && (id in t.sessions <==> matches && user in s.accounts && s.accounts[user].status == 1)
            && (id in t.sessions ==> t.sessions[id].user == user && !t.sessions[id].revoked)
            && t.accounts == s.accounts && t.pending == s.pending
            && forall other | other != id :: other in t.sessions <==> other in s.sessions
  {
    assert user in s.accounts ==> s.pending[pid := Verified(user, s.accounts[user].hash)] - {pid} == s.pending;
  }

  /** An undisturbed change of password takes effect exactly when the old one matches; and then no session is live. */
  lemma ChangeAloneIff(s: State, pid: Pid, user: UserId, matches: bool, hash: Hash)
    requires pid !in s.pending && user in s.accounts
    ensures var t := Next(Next(s, CheckOldPassword(pid, user, matches)), CommitChange(pid, hash));
            && t.pending == s.pending && t.sessions.Keys == s.sessions.Keys && t.accounts.Keys == s.accounts.Keys
            && (!matches ==> t == s)
            && (matches ==> t.accounts[user].hash == hash && t.accounts[user].status == s.accounts[user].status)
            && (matches ==> forall id | id in t.sessions && t.sessions[id].user == user :: t.sessions[id].revoked)
            && forall id | id in t.sessions && t.sessions[id].user != user :: t.sessions[id] == s.sessions[id]
  {
    assert s.pending[pid := Changing(user)] - {pid} == s.pending;
  }

  // ---------------------------------------------------------------------------------------------
  // Why the transaction checks again, and why sessions outside the lock are left out
  // ---------------------------------------------------------------------------------------------

  /** A login that checked a password which has been replaced meanwhile gets no session. */
  lemma ReplacedPasswordIsRefused(s: State, pid: Pid, id: SessionId)
    requires pid in s.pending && s.pending[pid].Verified? && s.pending[pid].user in s.accounts
    ensures Next(s, CommitLogin(pid, id)).sessions != s.sessions <==>
            id !in s.sessions && s.accounts[s.pending[pid].user].status == NORMAL &&
            s.accounts[s.pending[pid].user].hash == s.pending[pid].hash
  {
  }

  /** The login is still to be committed, and the hash it checked is not the account's. */
  ghost predicate Overtaken(s: State, pid: Pid, user: UserId, hash: Hash) {
    && pid in s.pending && s.pending[pid] == Verified(user, hash)
    && user in s.accounts && s.accounts[user].hash != hash
  }

  /** The step neither commits the login nor gives the account the hash it checked. */
  predicate LeavesOvertaken(step: Step, pid: Pid, user: UserId, hash: Hash) {
    match step
    case CommitLogin(p, _) => p != pid
    case CommitChange(_, h) => h != hash
    case AdminPassword(u, h) => u != user || h != hash
    case _ => true
  }

  lemma {:induction false} StaysOvertaken(s: State, steps: seq<Step>, pid: Pid, user: UserId, hash: Hash)
    requires Overtaken(s, pid, user, hash) && forall step | step in steps :: LeavesOvertaken(step, pid, user, hash)
    ensures Overtaken(Run(s, steps), pid, user, hash)
    decreases |steps|
  {
    if steps != [] {
      assert steps[0] in steps;
      StaysOvertaken(Next(s, steps[0]), steps[1..], pid, user, hash);
    }
  }

  /**
   A login that has checked its password before the password is reset gets no session, however late it
   commits and whatever else happens, unless the account is given the same hash again.
   */
  lemma OvertakenLoginIsRefused(s: State, change: Hash, after: seq<Step>, pid: Pid, id: SessionId)
    requires pid in s.pending && s.pending[pid].Verified? && s.pending[pid].user in s.accounts
    requires change != s.pending[pid].hash
    requires var Verified(user, hash) := s.pending[pid];
             forall step | step in after :: LeavesOvertaken(step, pid, user, hash)
    ensures var t := Run(Next(s, AdminPassword(s.pending[pid].user, change)), after);
            Next(t, CommitLogin(pid, id)).sessions == t.sessions
  {
    var Verified(user, hash) := s.pending[pid];
    var t := Run(Next(s, AdminPassword(user, change)), after);
    StaysOvertaken(Next(s, AdminPassword(user, change)), after, pid, user, hash);
    ReplacedPasswordIsRefused(t, pid, id);
  }

  /** A live session whose request had committed before the last reset: the reset has missed it. */
  ghost predicate SurvivesReset(s: State, id: SessionId) {
    && id in s.sessions && !s.sessions[id].revoked && s.sessions[id].origin.Unlocked?
    && s.sessions[id].user in s.accounts && s.sessions[id].origin.asOf < s.accounts[s.sessions[id].user].resets
  }

  /** Exactly the live sessions whose account was reset between the request's transaction and the session. */
  lemma SurvivesResetIff(steps: seq<Step>, id: SessionId)
    requires var s := Run(INIT, steps); id in s.sessions && s.sessions[id].origin.Unlocked? && !s.sessions[id].revoked
    ensures var s := Run(INIT, steps);
            SurvivesReset(s, id) <==> s.sessions[id].origin.asOf < s.sessions[id].since
  {
    RunKeeps(INIT, steps);
    var s := Run(INIT, steps);
    assert Current(s, s.sessions[id]);
  }

  /**
   And exactly one step makes such a session: the creation of one for a request whose account has been
   reset since. No later reset, login or change of name does.
   */
  lemma OnlyALateCreationSurvives(steps: seq<Step>, step: Step, id: SessionId)
    requires !SurvivesReset(Run(INIT, steps), id)
    ensures var s := Run(INIT, steps);
            SurvivesReset(Next(s, step), id) <==>
            && step.CreateUnlocked? && step.session == id && id !in s.sessions
            && step.pid in s.pending && s.pending[step.pid].Owing?
            && s.pending[step.pid].user in s.accounts
            && s.pending[step.pid].asOf < s.accounts[s.pending[step.pid].user].resets
  {
    RunKeeps(INIT, steps);
    var s := Run(INIT, steps);
    StepKeeps(s, step);
    var t := Next(s, step);
    if step.CreateUnlocked? && step.pid in s.pending { assert Owed(s, s.pending[step.pid]); }
    if id in s.sessions { assert Current(s, s.sessions[id]); }
    if id in t.sessions { assert Current(t, t.sessions[id]); }
  }

  /** Such a session does come about: here a reset slips in before a registration's. */
  lemma UnlockedSessionSurvivesReset()
    ensures exists steps, id :: SurvivesReset(Run(INIT, steps), id)
  {
    var a := State(map[0 := Account("old", NORMAL, false, 0)], map[], map[1 := Owing(0, 0)]);
    var b := State(map[0 := Account("new", NORMAL, false, 1)], map[], map[1 := Owing(0, 0)]);
    var c := State(b.accounts, map[7 := Session(0, Unlocked(0), 1, false)], map[]);
    var steps := [Register(1, 0, "old"), AdminPassword(0, "new"), CreateUnlocked(1, 7)];
    assert Next(INIT, steps[0]) == a && Next(a, steps[1]) == b && Next(b, steps[2]) == c;
    assert steps[1..] == [steps[1], steps[2]] && steps[1..][1..] == [steps[2]] && steps[1..][1..][1..] == [];
    assert Run(INIT, steps) == Run(a, steps[1..]) == Run(b, steps[1..][1..]) == Run(c, []) == c;
    assert SurvivesReset(c, 7);
  }
}
