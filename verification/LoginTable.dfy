/**
 The login table and the query user of one registered device
 (svc-device-manager/accountsService.go and collect_data.go).  What the device answers over
 HTTP is an arbitrary input of each operation.  The table is a Go map, so a search in it may
 return any of the records that match.
 */
module LoginTable {
  import opened Options

  datatype Kind = TOKEN | BASIC | NONE

  /** `userAuth`; nothing sets the `PassAuth` field of a record. */
  datatype UserAuth = UserAuth(kind: Kind, token: string, userName: string, password: string)

  /** The zero record, which stands for "not found". */
  const NOBODY := UserAuth(TOKEN, "", "", "")
  const ANONYMOUS := UserAuth(NONE, "", "", "")

  datatype State = State(users: map<string, UserAuth>, querying: bool, queryUser: UserAuth, passAuth: bool)

  // ---------------------------------------------------------------- what the device answers

  /** Answers while a user's session is searched and deleted. */
  datatype SessionReply = SessionReply(found: bool, status: int, failed: bool, delStatus: int, delFailed: bool)

  /** `post` is present when there was a response; it holds the token of its header. */
  datatype LoginReply = LoginReply(
    serviceStatus: int, serviceFailed: bool, serviceEnabled: string,
    postStatus: int, postFailed: bool, post: Option<string>,
    account: bool, session: SessionReply)

  predicate Deleted(status: int) { status == 200 || status == 204 || status == 202 }

  predicate SessionGone(r: SessionReply) {
    if !r.failed && r.found then Deleted(r.delStatus) && !r.delFailed else !r.failed
  }

  predicate TokenGranted(r: LoginReply) {
    && !(r.serviceStatus == 200 && (r.serviceFailed || r.serviceEnabled == "false"))
    && r.postStatus == 201 && r.post.Some? && !r.postFailed
  }

  predicate BasicGranted(r: LoginReply) { r.account && SessionGone(r.session) }

  // ---------------------------------------------------------------- operations on values

  predicate Matches(s: State, u: string, text: string) {
    u in s.users && (s.users[u].token == text || u == text)
  }

  /** The records that `getUserAuthData` may return. */
  ghost predicate Answer(s: State, text: string, a: UserAuth) {
    if text == "" then a == if s.passAuth then ANONYMOUS else NOBODY
    else if exists u :: Matches(s, u, text) then exists u :: Matches(s, u, text) && a == s.users[u]
    else a == NOBODY
  }

  /** `caller` and `target` are the records found in the table for `auth` and for `user`. */
  datatype Op =
    | Login(user: string, password: string, basic: bool, reply: LoginReply)
    | Logout(auth: string, user: string, caller: UserAuth, target: UserAuth, session: SessionReply)
    | RemoveAccount(auth: string, user: string, caller: UserAuth, sessionDel: Option<int>, accountDel: Option<int>)
    | ChangePassword(auth: string, user: string, password: string, caller: UserAuth, patch: Option<int>)
    | StartQuery(auth: string, caller: UserAuth)
    | StopQuery

  ghost predicate Possible(s: State, op: Op) {
    match op
    case Login(_, _, _, _) => true
    case Logout(auth, user, caller, target, _) => Answer(s, auth, caller) && Answer(s, user, target)
    case RemoveAccount(auth, _, caller, _, _) => Answer(s, auth, caller)
    case ChangePassword(auth, _, _, caller, _) => Answer(s, auth, caller)
    case StartQuery(auth, caller) => Answer(s, auth, caller)
    case StopQuery => true
  }

  function Fresh(user: string, password: string, basic: bool): UserAuth {
    UserAuth(if basic then BASIC else TOKEN, "", user, password)
  }

  /** Whether the operation ends without an error. */
  predicate Succeeds(op: Op) {
    match op
    case Login(user, password, basic, r) =>
      Fresh(user, password, basic) != NOBODY && if basic then BasicGranted(r) else TokenGranted(r)
    case Logout(_, _, caller, target, r) => caller != NOBODY && target != NOBODY && target.kind == TOKEN && SessionGone(r)
    case RemoveAccount(_, _, caller, s, a) =>
      caller != NOBODY && (s.Some? ==> s.value == 200) && (a.Some? ==> Deleted(a.value))
    case ChangePassword(_, _, _, caller, p) => caller != NOBODY && (p.Some? ==> p.value == 200)
    case StartQuery(_, caller) => caller != NOBODY
    case StopQuery => true
  }

  function SessionStatus(r: SessionReply): int {
    if !r.failed && r.found then r.delStatus else r.status
  }

  /** The status returned; some paths leave it at zero. */
  function Status(op: Op): int {
    match op
    case Login(user, password, basic, r) =>
      if Fresh(user, password, basic) == NOBODY then 0
      else if basic then
        if !r.account then 400 else if SessionGone(r.session) then 0 else SessionStatus(r.session)
      else if r.serviceStatus == 200 && r.serviceFailed then 200
      else if r.serviceStatus == 200 && r.serviceEnabled == "false" then 400
      else r.postStatus
    case Logout(_, _, caller, target, r) =>
      if caller == NOBODY || target == NOBODY || target.kind != TOKEN then 400 else SessionStatus(r)
    case RemoveAccount(_, _, caller, s, a) =>
      if caller == NOBODY then 400
      else if s.Some? && s.value != 200 then s.value
      else if a.Some? then if Deleted(a.value) then a.value else 404
      else if s.Some? then s.value else 0
    case ChangePassword(_, _, _, caller, p) => if caller == NOBODY then 400 else if p.Some? then p.value else 0
    case StartQuery(_, caller) => if caller == NOBODY then 400 else 200
    case StopQuery => 200
  }

  function Apply(s: State, op: Op): State {
    match op
    case Login(user, password, basic, r) =>
      if !Succeeds(op) then s.(users := s.users - {user})
      else if basic then
        var a := Fresh(user, password, true);
        s.(users := s.users[user := a], queryUser := a)
      else s.(users := s.users[user := Fresh(user, password, false).(token := r.post.value)])
    case Logout(_, user, _, _, _) => if Succeeds(op) then s.(users := s.users - {user}) else s
    case RemoveAccount(_, user, _, _, _) => if Succeeds(op) then s.(users := s.users - {user}) else s
    case ChangePassword(_, user, password, caller, p) =>
      if Succeeds(op) && p.Some? then s.(users := s.users[user := caller.(password := password)]) else s
    case StartQuery(_, caller) => if Succeeds(op) then s.(querying := true, queryUser := caller) else s
    case StopQuery => s.(querying := false, queryUser := NOBODY)
  }

  /** `t` follows from `s` by the operation, which answers `ok` and the status. */
  ghost predicate Took(s: State, op: Op, ok: bool, status: int, t: State) {
    Possible(s, op) && ok == Succeeds(op) && status == Status(op) && t == Apply(s, op)
  }

  // ---------------------------------------------------------------- the device

  class Device {
    var userLoginInfo: map<string, UserAuth>
    var queryState: bool
    var queryUser: UserAuth
    const passAuth: bool

    ghost function Value(): State
      reads this
    {
      State(userLoginInfo, queryState, queryUser, passAuth)
    }

    method UpdateAuthData(token: string, user: string, password: string, basic: bool) returns (a: UserAuth)
      modifies this`userLoginInfo
      ensures a == Fresh(user, password, basic).(token := token)
      ensures userLoginInfo == old(userLoginInfo)[user := a]
    {
      a := UserAuth(if basic then BASIC else TOKEN, token, user, password);
      userLoginInfo := userLoginInfo[user := a];
    }

    method GetUserAuthData(text: string) returns (a: UserAuth)
      ensures Answer(Value(), text, a)
    {
      if text != "" {
        var rest := userLoginInfo.Keys;
        while rest != {}
          invariant rest <= userLoginInfo.Keys
          invariant forall u :: u in userLoginInfo && u !in rest ==> !Matches(Value(), u, text)
          decreases |rest|
        {
          var u :| u in rest;
          if userLoginInfo[u].token == text || u == text {
            assert Matches(Value(), u, text);
            return userLoginInfo[u];
          }
          rest := rest - {u};
        }
      } else if passAuth {
        return UserAuth(NONE, "", "", "");
      }
      return NOBODY;
    }

    /** The record is stored first; the deferred function removes it when an error is returned. */
    method LoginDevice(user: string, password: string, basic: bool, reply: LoginReply)
      returns (token: string, status: int, ok: bool)
      modifies this`userLoginInfo, this`queryUser
      ensures Value() == Apply(old(Value()), Login(user, password, basic, reply))
      ensures ok == Succeeds(Login(user, password, basic, reply))
      ensures ok ==> token == if basic then user else userLoginInfo[user].token
      ensures status == Status(Login(user, password, basic, reply))
      ensures !ok ==> user !in userLoginInfo && (token == "" || reply.postFailed)
      ensures !basic ==> (ok <==>
                && (user != "" || password != "")
                && (reply.serviceStatus == 200 ==> !reply.serviceFailed && reply.serviceEnabled != "false")
                && reply.postStatus == 201 && reply.post.Some? && !reply.postFailed)
      ensures basic ==> (ok <==>
                && reply.account && !reply.session.failed
                && (reply.session.found ==> reply.session.delStatus in {200, 202, 204} && !reply.session.delFailed))
    {
      token, status, ok := TryLogin(user, password, basic, reply);
      if !ok {
        userLoginInfo := userLoginInfo - {user};
      }
    }

    method TryLogin(user: string, password: string, basic: bool, reply: LoginReply)
      returns (token: string, status: int, ok: bool)
      modifies this`userLoginInfo, this`queryUser
      ensures ok == Succeeds(Login(user, password, basic, reply))
      ensures ok ==> Value() == Apply(old(Value()), Login(user, password, basic, reply))
      ensures ok ==> token == if basic then user else userLoginInfo[user].token
      ensures status == Status(Login(user, password, basic, reply))
      ensures !ok ==> token == "" || reply.postFailed
      ensures queryState == old(queryState) && userLoginInfo - {user} == old(userLoginInfo) - {user}
      ensures !ok ==> queryUser == old(queryUser)
    {
      token, status, ok := "", 0, false;
      var data := UpdateAuthData("", user, password, basic);
      if data == NOBODY {
        return;
      }
      if data.kind == TOKEN {
        if reply.serviceStatus == 200 {
          if reply.serviceFailed {
            status := reply.serviceStatus;
            return;
          }
          if reply.serviceEnabled == "false" {
            status := 400;
            return;
          }
        }
        status := reply.postStatus;
        if reply.postStatus == 201 && reply.post.Some? {
          token := reply.post.value;
          data := data.(token := token);
          userLoginInfo := userLoginInfo[user := data];
          ok := !reply.postFailed;
        }
      } else {
        if !reply.account {
          status := 400;
          return;
        }
        var failed;
        status, failed := DeleteDeviceSession(reply.session);
        if failed {
          return;
        }
        queryUser := data;
        token, status, ok := user, 0, true;
      }
    }

    method DeleteDeviceSession(r: SessionReply) returns (status: int, failed: bool)
      ensures failed == !SessionGone(r)
      ensures failed <==> r.failed || (r.found && (r.delFailed || r.delStatus !in {200, 202, 204}))
      ensures status == SessionStatus(r)
    {
      status, failed := r.status, r.failed;
      if !failed && r.found {
        status, failed := r.delStatus, r.delFailed;
        if status != 200 && status != 204 && status != 202 {
          failed := true;
        }
      }
    }

    method LogoutDevice(auth: string, user: string, session: SessionReply) returns (status: int, ok: bool)
      modifies this`userLoginInfo
      ensures exists caller, target :: Took(old(Value()), Logout(auth, user, caller, target, session), ok, status, Value())
    {
      var caller := GetUserAuthData(auth);
      var target := GetUserAuthData(user);
      ghost var op := Logout(auth, user, caller, target, session);
      if caller == NOBODY || target == NOBODY || target.kind != TOKEN {
        assert Took(old(Value()), op, false, 400, Value());
        return 400, false;
      }
      var failed;
      status, failed := DeleteDeviceSession(session);
      ok := !failed;
      if ok && user in userLoginInfo {
        userLoginInfo := userLoginInfo - {user};
      }
      assert Took(old(Value()), op, ok, status, Value());
    }

    method RemoveDeviceAccount(auth: string, user: string, sessionDel: Option<int>, accountDel: Option<int>)
      returns (status: int, ok: bool)
      modifies this`userLoginInfo
      ensures exists caller :: Took(old(Value()), RemoveAccount(auth, user, caller, sessionDel, accountDel), ok, status, Value())
      ensures ok ==> user !in userLoginInfo
      ensures ok ==> status == if accountDel.Some? then accountDel.value else if sessionDel.Some? then 200 else 0
      ensures !ok ==> status == 400 || status == 404 || (sessionDel.Some? && status == sessionDel.value)
      ensures ok ==> (sessionDel.Some? ==> sessionDel.value == 200) && (accountDel.Some? ==> accountDel.value in {200, 202, 204})
    {
      var caller := GetUserAuthData(auth);
      ghost var op := RemoveAccount(auth, user, caller, sessionDel, accountDel);
      if caller == NOBODY {
        assert Took(old(Value()), op, false, 400, Value());
        return 400, false;
      }
      status, ok := 0, true;
      if sessionDel.Some? {
        status := sessionDel.value;
        if status != 200 {
          assert Took(old(Value()), op, false, status, Value());
          return status, false;
        }
      }
      if accountDel.Some? {
        status := accountDel.value;
        if status != 200 && status != 204 && status != 202 {
          assert Took(old(Value()), op, false, 404, Value());
          return 404, false;
        }
      }
      if user in userLoginInfo {
        userLoginInfo := userLoginInfo - {user};
      }
      assert Took(old(Value()), op, ok, status, Value());
    }

    /** Stores the caller's record, with the new password, under the name of the target. */
    method ChangeDeviceUserPassword(auth: string, user: string, password: string, patch: Option<int>)
      returns (status: int, ok: bool)
      modifies this`userLoginInfo
      ensures exists caller :: Took(old(Value()), ChangePassword(auth, user, password, caller, patch), ok, status, Value())
      ensures ok && patch.Some? ==> patch.value == 200 && user in userLoginInfo && userLoginInfo[user].password == password
      ensures !ok || patch.None? ==> userLoginInfo == old(userLoginInfo)
      ensures ok ==> status == if patch.Some? then 200 else 0
      ensures !ok ==> status == 400 || (patch.Some? && status == patch.value)
    {
      var caller := GetUserAuthData(auth);
      ghost var op := ChangePassword(auth, user, password, caller, patch);
      if caller == NOBODY {
        assert Took(old(Value()), op, false, 400, Value());
        return 400, false;
      }
      status, ok := 0, true;
      if patch.Some? {
        status := patch.value;
        if status != 200 {
          assert Took(old(Value()), op, false, status, Value());
          return status, false;
        }
        userLoginInfo := userLoginInfo[user := caller.(password := password)];
      }
      assert Took(old(Value()), op, ok, status, Value());
    }

    method StartQueryDeviceData(auth: string) returns (status: int, ok: bool)
      modifies this`queryState, this`queryUser
      ensures exists caller :: Took(old(Value()), StartQuery(auth, caller), ok, status, Value())
      ensures status == if ok then 200 else 400
    {
      var caller := GetUserAuthData(auth);
      ghost var op := StartQuery(auth, caller);
      if caller == NOBODY {
        assert Took(old(Value()), op, false, 400, Value());
        return 400, false;
      }
      queryState := true;
      queryUser := caller;
      status, ok := 200, true;
      assert Took(old(Value()), op, ok, status, Value());
    }

    method StopQueryDeviceData() returns (status: int)
      modifies this`queryState, this`queryUser
      ensures Value() == Apply(old(Value()), StopQuery) && status == Status(StopQuery)
    {
      queryState := false;
      queryUser := NOBODY;
      status := 200;
    }
  }

  // ---------------------------------------------------------------- runs

  /** Each record stored under a name carries that name. */
  ghost predicate NamesOwn(s: State) { forall u :: u in s.users ==> s.users[u].userName == u }

  ghost predicate QueryHasUser(s: State) { s.querying ==> s.queryUser != NOBODY }

  /** A password change that stores a record stores one that names its target. */
  predicate Agrees(op: Op) {
    op.ChangePassword? && Succeeds(op) && op.patch.Some? ==> op.caller.userName == op.user
  }

  function Final(s: State, ops: seq<Op>): State
    decreases |ops|
  {
    if ops == [] then s else Final(Apply(s, ops[0]), ops[1..])
  }

  ghost predicate NamesOwnThroughout(s: State, ops: seq<Op>)
    decreases |ops|
  {
    NamesOwn(s) && (ops != [] ==> NamesOwnThroughout(Apply(s, ops[0]), ops[1..]))
  }

  /** One step keeps the names exactly when it agrees. */
  lemma StepNames(s: State, op: Op)
    requires NamesOwn(s)
    ensures NamesOwn(Apply(s, op)) <==> Agrees(op)
  {
    if !Agrees(op) {
      assert Apply(s, op).users[op.user].userName != op.user;
    }
  }

  /** The table holds under each name a record of that name all through a run if and only if
      no password change in it is made by another user. */
  lemma {:induction false} RunNames(s: State, ops: seq<Op>)
    requires NamesOwn(s)
    ensures NamesOwnThroughout(s, ops) <==> forall i :: 0 <= i < |ops| ==> Agrees(ops[i])
    decreases |ops|
  {
    if ops != [] {
      StepNames(s, ops[0]);
      var rest := ops[1..];
      assert forall i :: 0 < i < |ops| ==> ops[i] == rest[i - 1];
      assert forall i :: 0 <= i < |rest| ==> rest[i] == ops[i + 1];
      if Agrees(ops[0]) {
        RunNames(Apply(s, ops[0]), rest);
      } else {
        assert !NamesOwnThroughout(Apply(s, ops[0]), rest);
      }
    }
  }

  /** A device that is queried has a query user, after every run. */
  lemma {:induction false} RunQuery(s: State, ops: seq<Op>)
    requires QueryHasUser(s)
    ensures QueryHasUser(Final(s, ops))
    decreases |ops|
  {
    if ops != [] {
      RunQuery(Apply(s, ops[0]), ops[1..]);
    }
  }

  /** The password that the table holds for a user, if it has an entry. */
  function Password(s: State, u: string): Option<string> {
    if u in s.users then Some(s.users[u].password) else None
  }

  /** The same, told by the outcomes of the operations that name the user. */
  function Told(before: Option<string>, op: Op, u: string): Option<string> {
    if op.StartQuery? || op.StopQuery? || op.user != u then before
    else if op.Login? then if Succeeds(op) then Some(op.password) else None
    else if !Succeeds(op) then before
    else if !op.ChangePassword? then None
    else if op.patch.Some? then Some(op.password)
    else before
  }

  function ToldByAll(before: Option<string>, ops: seq<Op>, u: string): Option<string>
    decreases |ops|
  {
    if ops == [] then before else ToldByAll(Told(before, ops[0], u), ops[1..], u)
  }

  lemma StepEntry(s: State, op: Op, u: string)
    ensures Password(Apply(s, op), u) == Told(Password(s, u), op, u)
  {
    hide Succeeds;
  }

  /** After every run a user has an entry exactly when the last of the user's own operations
      that counted was a successful login or password change, and its password is the one given
      there: a failed login, a logout and a removal leave no entry, and operations on other
      users change nothing. */
  lemma {:induction false} RunEntries(s: State, ops: seq<Op>, u: string)
    ensures Password(Final(s, ops), u) == ToldByAll(Password(s, u), ops, u)
    decreases |ops|
  {
    hide Apply, Told, Password;
    if ops != [] {
      StepEntry(s, ops[0], u);
      RunEntries(Apply(s, ops[0]), ops[1..], u);
    }
  }

  /** Operations leave whole records of other users alone. */
  lemma {:induction false} RunKeepsOthers(s: State, ops: seq<Op>, u: string)
    requires forall i :: 0 <= i < |ops| ==> ops[i].StartQuery? || ops[i].StopQuery? || ops[i].user != u
    ensures u in s.users <==> u in Final(s, ops).users
    ensures u in s.users ==> Final(s, ops).users[u] == s.users[u]
    decreases |ops|
  {
    if ops != [] {
      RunKeepsOthers(Apply(s, ops[0]), ops[1..], u);
    }
  }

  // ---------------------------------------------------------------- searching

  /** A token in use belongs to one user and is no other user's name. */
  ghost predicate Separated(s: State) {
    forall u, v :: u in s.users && v in s.users && u != v && s.users[u].token != "" ==>
      s.users[u].token != s.users[v].token && s.users[u].token != v
  }

  /** The search does not depend on the order of the map if and only if the tokens are
      separated. */
  lemma SearchDetermined(s: State)
    requires NamesOwn(s)
    ensures (forall text, a, b :: Answer(s, text, a) && Answer(s, text, b) ==> a == b) <==> Separated(s)
  {
    if !Separated(s) {
      var u, v :| u in s.users && v in s.users && u != v && s.users[u].token != "" &&
        (s.users[u].token == s.users[v].token || s.users[u].token == v);
      var text := s.users[u].token;
      assert Matches(s, u, text) && Matches(s, v, text);
      assert Answer(s, text, s.users[u]) && Answer(s, text, s.users[v]);
      assert s.users[u] != s.users[v];
    } else {
      forall text, a, b | Answer(s, text, a) && Answer(s, text, b)
        ensures a == b
      {
        if text != "" {
          forall u, v | Matches(s, u, text) && Matches(s, v, text)
            ensures u == v
          {
          }
        }
      }
    }
  }

  /** A login brings in a token that is unused and no one's name, for a name that is no one's
      token. */
  ghost predicate TokenNew(s: State, op: Op) {
    op.Login? ==> forall v :: v in s.users && v != op.user ==>
      && (s.users[v].token == "" || s.users[v].token != op.user)
      && (op.reply.post.Some? ==> s.users[v].token != op.reply.post.value && v != op.reply.post.value)
  }

  lemma PutSeparated(s: State, u: string, a: UserAuth)
    requires Separated(s)
    requires forall v :: v in s.users && v != u ==>
      && (s.users[v].token == "" || s.users[v].token != u)
      && (a.token == "" || (s.users[v].token != a.token && v != a.token))
    ensures Separated(s.(users := s.users[u := a]))
  {
  }

  lemma StepSeparated(s: State, op: Op)
    requires NamesOwn(s) && Separated(s) && Possible(s, op) && TokenNew(s, op) && Agrees(op)
    ensures Separated(Apply(s, op))
  {
    hide BasicGranted, SessionGone, Answer;
    if op.Login? && Succeeds(op) {
      PutSeparated(s, op.user, Apply(s, op).users[op.user]);
    } else if op.ChangePassword? && Succeeds(op) && op.patch.Some? {
      CallerRecord(s, op.auth, op.caller);
      if op.user in s.users && op.caller == s.users[op.user] {
        KeepSeparated(s, op.user, op.password);
      } else {
        assert op.caller == ANONYMOUS;
        PutSeparated(s, op.user, op.caller.(password := op.password));
      }
    }
  }

  /** A record found by a search is the one stored under its name, or the anonymous one. */
  lemma CallerRecord(s: State, text: string, a: UserAuth)
    requires NamesOwn(s) && Answer(s, text, a) && a != NOBODY
    ensures a == ANONYMOUS || (a.userName in s.users && a == s.users[a.userName])
  {
  }

  lemma KeepSeparated(s: State, u: string, password: string)
    requires Separated(s) && u in s.users
    ensures Separated(s.(users := s.users[u := s.users[u].(password := password)]))
  {
  }

  ghost predicate OrderlyRun(s: State, ops: seq<Op>)
    decreases |ops|
  {
    ops != [] ==>
      Possible(s, ops[0]) && TokenNew(s, ops[0]) && Agrees(ops[0]) && OrderlyRun(Apply(s, ops[0]), ops[1..])
  }

  /** With new tokens and no foreign password change, the search is determined after every run. */
  lemma {:induction false} RunSearchDetermined(s: State, ops: seq<Op>)
    requires NamesOwn(s) && Separated(s) && OrderlyRun(s, ops)
    ensures forall text, a, b :: Answer(Final(s, ops), text, a) && Answer(Final(s, ops), text, b) ==> a == b
    decreases |ops|
  {
    hide Apply, Answer, Separated, Possible, TokenNew;
    if ops == [] {
      SearchDetermined(s);
    } else {
      StepNames(s, ops[0]);
      StepSeparated(s, ops[0]);
      RunSearchDetermined(Apply(s, ops[0]), ops[1..]);
    }
  }

  /** When a user changes another user's password, a search for that user's name can afterwards
      answer with the record of the caller, and the caller's token is held twice. */
  lemma ForeignChangeImpersonates(s: State, op: Op)
    requires NamesOwn(s) && op.ChangePassword? && Possible(s, op) && op.user != "" && op.caller.userName in s.users
    requires Succeeds(op) && op.patch.Some? && !Agrees(op)
    ensures exists a :: Answer(Apply(s, op), op.user, a) && a.userName == op.caller.userName != op.user
    ensures op.caller.token != "" && op.auth != "" ==> !Separated(Apply(s, op))
  {
    var t := Apply(s, op);
    assert Matches(t, op.user, op.user);
    assert Answer(t, op.user, t.users[op.user]);
    if op.caller.token != "" && op.auth != "" {
      var c := op.caller.userName;
      assert c in t.users && t.users[c].token == op.caller.token == t.users[op.user].token;
    }
  }

  // ---------------------------------------------------------------- operations together

  /** No other user's token is the name. */
  predicate NameOnly(s: State, u: string) {
    u != "" && forall v :: v in s.users && v != u ==> s.users[v].token != u
  }

  /** What a successful login leaves: a record under the user's own name that says how the user
      logged in and, for a token, holds the token of the answer. */
  lemma LoginLeaves(s: State, user: string, password: string, basic: bool, r: LoginReply)
    requires Succeeds(Login(user, password, basic, r))
    ensures var t := Apply(s, Login(user, password, basic, r));
            && user in t.users && t.users - {user} == s.users - {user} && t.querying == s.querying
            && (basic ==> t.users[user] == UserAuth(BASIC, "", user, password) == t.queryUser)
            && (!basic ==> r.post.Some? && t.users[user] == UserAuth(TOKEN, r.post.value, user, password) && t.queryUser == s.queryUser)
  {
  }

  /** After a login by token the user can be logged out as soon as the device gives up the
      session, and the table is then as it was without the user; after a basic login never. */
  lemma LoginThenLogout(s: State, user: string, password: string, basic: bool, r: LoginReply,
                        auth: string, caller: UserAuth, target: UserAuth, session: SessionReply)
    requires NameOnly(s, user) && Succeeds(Login(user, password, basic, r))
    requires var t := Apply(s, Login(user, password, basic, r));
             Possible(t, Logout(auth, user, caller, target, session)) && caller != NOBODY
    ensures var t := Apply(s, Login(user, password, basic, r));
            var out := Logout(auth, user, caller, target, session);
            && target == t.users[user]
            && (Succeeds(out) <==> !basic && SessionGone(session))
            && (Succeeds(out) ==> Apply(t, out).users == s.users - {user})
            && (!Succeeds(out) ==> Apply(t, out) == t)
  {
    var t := Apply(s, Login(user, password, basic, r));
    hide SessionGone, TokenGranted, BasicGranted;
    assert Matches(t, user, user);
    forall v | Matches(t, v, user) ensures v == user { }
  }

  /** The query user told by the operations: the last successful basic login or start decides,
      unless a stop came after it. */
  function ToldQueryUser(before: UserAuth, ops: seq<Op>): UserAuth {
    if ops == [] then before
    else
      var op := ops[|ops| - 1];
      var earlier := ToldQueryUser(before, ops[..|ops| - 1]);
      match op
      case Login(u, p, basic, _) => if basic && Succeeds(op) then UserAuth(BASIC, "", u, p) else earlier
      case StartQuery(_, caller) => if caller != UserAuth(TOKEN, "", "", "") then caller else earlier
      case StopQuery => UserAuth(TOKEN, "", "", "")
      case _ => earlier
  }

  /** Whether the device is queried: the last stop or successful start decides. */
  predicate ToldQuerying(before: bool, ops: seq<Op>) {
    if ops == [] then before
    else
      var op := ops[|ops| - 1];
      if op.StopQuery? then false
      else (op.StartQuery? && op.caller != UserAuth(TOKEN, "", "", "")) || ToldQuerying(before, ops[..|ops| - 1])
  }

  lemma {:induction false} FinalLast(s: State, ops: seq<Op>)
    requires ops != []
    ensures Final(s, ops) == Apply(Final(s, ops[..|ops| - 1]), ops[|ops| - 1])
    decreases |ops|
  {
    hide Apply;
    if |ops| > 1 {
      FinalLast(Apply(s, ops[0]), ops[1..]);
      assert ops[1..][..|ops| - 2] == ops[..|ops| - 1][1..];
    }
  }

  /** After every run the query user and the query state are as the operations tell. */
  lemma {:induction false} RunQueryUser(s: State, ops: seq<Op>)
    ensures Final(s, ops).queryUser == ToldQueryUser(s.queryUser, ops)
    ensures Final(s, ops).querying == ToldQuerying(s.querying, ops)
    decreases |ops|
  {
    if ops != [] {
      RunQueryUser(s, ops[..|ops| - 1]);
      FinalLast(s, ops);
      StepQueryUser(Final(s, ops[..|ops| - 1]), ops[|ops| - 1]);
    }
  }

  lemma StepQueryUser(s: State, op: Op)
    ensures Apply(s, op).queryUser ==
              if op.Login? && op.basic && Succeeds(op) then UserAuth(BASIC, "", op.user, op.password)
              else if op.StartQuery? && op.caller != UserAuth(TOKEN, "", "", "") then op.caller
              else if op.StopQuery? then UserAuth(TOKEN, "", "", "")
              else s.queryUser
    ensures Apply(s, op).querying ==
              (!op.StopQuery? && ((op.StartQuery? && op.caller != UserAuth(TOKEN, "", "", "")) || s.querying))
  {
  }

  /** A call without user and token finds a caller exactly when the device needs no authentication;
      that caller has no name. */
  lemma AnonymousCaller(s: State, caller: UserAuth)
    requires Possible(s, StartQuery("", caller))
    ensures Succeeds(StartQuery("", caller)) <==> s.passAuth
    ensures s.passAuth ==> caller.kind.NONE? && caller.userName == "" && caller.token == ""
  {
  }
}
