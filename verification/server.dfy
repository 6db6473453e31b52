/**
 * The HTTP handlers of the timer server (server/index.js) over its three
 * MongoDB collections `users`, `sessions` and `timers`, kept in memory.
 * The clock (`Date.now()`) is the parameter `now`; `nanoid()` and the
 * database's ObjectId generator are a choice of an unused non-empty string.
 */
module TimerServer {
  import opened Wrappers
  import opened Search
  import FreshNames

  /** An ObjectId, as its text (`_id.toString()`). */
  type Id = string
  /** A session token, as returned by `nanoid()` and sent in `X-SessionId`. */
  type Token = string

  /**
   * A SHA-256 hex digest. The hash itself is not modelled: the digest of a
   * password is kept symbolically, so equal digests mean equal passwords.
   */
  datatype Digest = Sha256(password: string)

  function Hash(password: string): Digest
  {
    Sha256(password)
  }

  lemma HashInjective(p: string, q: string)
    ensures Hash(p) == Hash(q) <==> p == q
  {
  }

  /** A document of the `users` collection. */
  datatype User = User(id: Id, username: string, password: Digest)

  /** A document of the `timers` collection; `end` and `duration` are set by the stop handler. */
  datatype Timer = Timer(id: Id, start: int, description: string, isActive: bool, userId: Id,
                         end: Option<int>, duration: Option<int>)

  /** One element of the `GET /api/timers` answer: active listings add `progress` and `id`. */
  datatype TimerView = TimerView(timer: Timer, progress: Option<int>, id: Option<Id>)

  /** `POST /login`: `{ sessionId }` or `{ error: 'user or password not found' }`. */
  datatype LoginReply = SessionReply(token: Token) | CredentialsError

  /** `GET /api/timers`: 401, the JSON array, or no answer at all when `isActive` is absent. */
  datatype ListReply = ListUnauthorized | NoReply | Listed(items: seq<TimerView>)

  /** `POST /api/timers`: 401 or 201 `{ id }`. */
  datatype CreateReply = CreateUnauthorized | Created(id: Id)
  {
    function Status(): int
    {
      if CreateUnauthorized? then 401 else 201
    }
  }

  /** `POST /api/timers/:id/stop`: 204, 400 "Timer not update", or 404. */
  datatype StopReply = StopNoContent | StopNotModified | StopNotFound
  {
    function Status(): int
    {
      match this
      case StopNoContent => 204
      case StopNotModified => 400
      case StopNotFound => 404
    }
  }

  /** `GET /logout`: `{}` or `{ error: 'user  not found' }`. */
  datatype LogoutReply = LoggedOut | LogoutError

  ghost predicate UserIdsDistinct(users: seq<User>)
  {
    forall i, j :: 0 <= i < j < |users| ==> users[i].id != users[j].id
  }

  ghost predicate TimerIdsDistinct(timers: seq<Timer>)
  {
    forall i, j :: 0 <= i < j < |timers| ==> timers[i].id != timers[j].id
  }

  /** A timer is either active with no end, or stopped with its end and duration. */
  predicate Consistent(t: Timer)
  {
    if t.isActive then t.end.None? && t.duration.None?
    else t.end.Some? && t.duration == Some(t.end.value - t.start)
  }

  /** `users.findOne({ username })`: the first user in natural order with that name. */
  function UserByName(users: seq<User>, username: string): (r: Option<User>)
    ensures r.None? <==> forall u :: u in users ==> u.username != username
    ensures r.Some? ==> r.value in users && r.value.username == username
    ensures r.Some? ==>
      exists k :: 0 <= k < |users| && users[k] == r.value && forall j :: 0 <= j < k ==> users[j].username != username
  {
    First(users, (u: User) => u.username == username)
  }

  /** `users.findOne({ _id })`. */
  function UserById(users: seq<User>, id: Id): (r: Option<User>)
    ensures r.None? <==> forall u :: u in users ==> u.id != id
    ensures r.Some? ==> r.value in users && r.value.id == id
  {
    First(users, (u: User) => u.id == id)
  }

  /**
   * The login check: the first user with that name, when its stored digest
   * is the digest of the given password.
   */
  function CheckCredentials(users: seq<User>, username: string, password: string): (r: Option<User>)
    ensures r.Some? <==>
      exists k :: 0 <= k < |users| && users[k].username == username && users[k].password == Hash(password)
        && forall j :: 0 <= j < k ==> users[j].username != username
    ensures r.Some? ==>
      r.value in users && r.value.username == username && r.value.password == Hash(password)
    ensures r.Some? ==>
      exists k :: 0 <= k < |users| && users[k] == r.value && forall j :: 0 <= j < k ==> users[j].username != username
  {
    var k := FirstIndex(users, (u: User) => u.username == username);
    assert k < |users| ==> users[k].username == username;
    match UserByName(users, username)
    case None => None
    case Some(u) => if u.password == Hash(password) then Some(u) else None
  }

  /**
   * The `auth()` middleware with `findUserBySessionId`: the user behind the
   * `X-SessionId` header, or none when the header is absent or empty, names
   * no session, or names a session whose user is gone.
   */
  function Resolve(users: seq<User>, sessions: map<Token, Id>, header: Option<string>): (r: Option<User>)
    ensures r.Some? <==>
      header.Some? && header.value != "" && header.value in sessions
        && exists u :: u in users && u.id == sessions[header.value]
    ensures r.Some? ==> r.value in users && r.value.id == sessions[header.value]
  {
    if header.None? || header.value == "" then None
    else if header.value !in sessions then None
    else UserById(users, sessions[header.value])
  }

  /** `timers.find({ userId, isActive })`. */
  function Selected(timers: seq<Timer>, userId: Id, active: bool): (s: seq<Timer>)
    ensures |s| <= |timers|
    ensures forall t :: t in s <==> t in timers && t.userId == userId && t.isActive == active
  {
    if timers == [] then []
    else
      var rest := Selected(timers[1..], userId, active);
      assert timers == [timers[0]] + timers[1..];
      if timers[0].userId == userId && timers[0].isActive == active then [timers[0]] + rest else rest
  }

  /** The query never returns a timer more often than the collection holds it. */
  lemma {:induction false} SelectedSubMultiset(timers: seq<Timer>, userId: Id, active: bool)
    ensures multiset(Selected(timers, userId, active)) <= multiset(timers)
  {
    if timers != [] {
      var rest := Selected(timers[1..], userId, active);
      SelectedSubMultiset(timers[1..], userId, active);
      assert timers == [timers[0]] + timers[1..];
      if timers[0].userId == userId && timers[0].isActive == active {
        assert Selected(timers, userId, active) == [timers[0]] + rest;
      }
    }
  }

  /** With distinct ids in the collection, the query returns each matching timer exactly once. */
  lemma {:induction false} SelectedIdsDistinct(timers: seq<Timer>, userId: Id, active: bool)
    requires TimerIdsDistinct(timers)
    ensures TimerIdsDistinct(Selected(timers, userId, active))
  {
    if timers != [] {
      var rest := Selected(timers[1..], userId, active);
      assert TimerIdsDistinct(timers[1..]) by {
        forall i, j | 0 <= i < j < |timers| - 1 ensures timers[1..][i].id != timers[1..][j].id {
          assert timers[1..][i] == timers[i + 1] && timers[1..][j] == timers[j + 1];
        }
      }
      SelectedIdsDistinct(timers[1..], userId, active);
      assert forall t :: t in rest ==> t.id != timers[0].id;
    }
  }

  /** Position of the timer with that id (`findOne({ _id })`), or `|timers|`. */
  function TimerIndex(timers: seq<Timer>, id: string): (k: nat)
    ensures k <= |timers|
    ensures k < |timers| ==> timers[k].id == id
    ensures forall j :: 0 <= j < k ==> timers[j].id != id
  {
    FirstIndex(timers, (t: Timer) => t.id == id)
  }

  /** The `$set` of the stop handler applied to one record. */
  function StopRecord(t: Timer, now: int): (u: Timer)
    ensures u.id == t.id && u.start == t.start && u.description == t.description && u.userId == t.userId
    ensures !u.isActive && u.end == Some(now) && Consistent(u)
  {
    t.(isActive := false, end := Some(now), duration := Some(now - t.start))
  }

  /**
   * The stop handler on the timers collection: its answer and the new
   * collection. There is no owner check and no `isActive` filter; MongoDB
   * reports `modifiedCount` 0 exactly when the `$set` leaves the record as it was.
   */
  function Stop(timers: seq<Timer>, id: string, now: int): (r: (StopReply, seq<Timer>))
    requires TimerIdsDistinct(timers)
    ensures r.0 == StopNotFound <==> forall t :: t in timers ==> t.id != id
    ensures r.0 == StopNotFound ==> r.1 == timers
    ensures |r.1| == |timers|
    ensures forall j :: 0 <= j < |timers| ==>
      r.1[j] == if timers[j].id == id then StopRecord(timers[j], now) else timers[j]
    ensures r.0 == StopNotModified <==>
      exists t :: t in timers && t.id == id
        && !t.isActive && t.end == Some(now) && t.duration == Some(now - t.start)
  {
    var k := TimerIndex(timers, id);
    if k == |timers| then (StopNotFound, timers)
    else
      var updated := StopRecord(timers[k], now);
      (if updated == timers[k] then StopNotModified else StopNoContent, timers[k := updated])
  }

  /** Stopping keeps every record consistent and every id distinct. */
  lemma StopKeepsInvariant(timers: seq<Timer>, id: string, now: int)
    requires TimerIdsDistinct(timers)
    requires forall t :: t in timers ==> Consistent(t)
    ensures TimerIdsDistinct(Stop(timers, id, now).1)
    ensures forall t :: t in Stop(timers, id, now).1 ==> Consistent(t)
  {
  }

  /**
   * A second stop of the same timer is not refused: it overwrites `end` and
   * `duration` and answers 204, except within the same millisecond, where
   * nothing changes and the answer is 400.
   */
  lemma StopTwice(timers: seq<Timer>, id: string, first: int, second: int)
    requires TimerIdsDistinct(timers)
    requires exists t :: t in timers && t.id == id
    ensures var once := Stop(timers, id, first).1;
      TimerIdsDistinct(once)
      && Stop(once, id, second).0 == (if first == second then StopNotModified else StopNoContent)
      && forall j :: 0 <= j < |timers| && timers[j].id == id ==>
           Stop(once, id, second).1[j] == StopRecord(timers[j], second)
  {
    var k := TimerIndex(timers, id);
    var once := Stop(timers, id, first).1;
    assert once == timers[k := StopRecord(timers[k], first)];
    assert TimerIndex(once, id) == k;
  }

  /** A token bound to a stored user resolves to that user. */
  lemma BoundTokenResolves(users: seq<User>, sessions: map<Token, Id>, token: Token, user: User)
    requires UserIdsDistinct(users)
    requires user in users && token != ""
    ensures Resolve(users, sessions[token := user.id], Some(token)) == Some(user)
  {
  }

  /**
   * Right after a signup whose username no earlier user has, logging in
   * with the same credentials finds the new user.
   */
  lemma {:induction false} LoginAfterSignup(users: seq<User>, id: Id, username: string, password: string)
    requires forall u :: u in users ==> u.username != username
    ensures CheckCredentials(users + [User(id, username, Hash(password))], username, password)
         == Some(User(id, username, Hash(password)))
  {
    var all := users + [User(id, username, Hash(password))];
    var r := CheckCredentials(all, username, password);
    assert all[|users|] == User(id, username, Hash(password));
    assert r.Some?;
    assert r.value !in users;
  }

  /**
   * The answer of `findIsActiv`: the caller's timers whose `isActive` is
   * `isActive == "true"`, and for an active listing each with
   * `progress = now - start` and its `id` text.
   */
  function Listing(timers: seq<Timer>, isActive: string, userId: Id, now: int): (items: seq<TimerView>)
    ensures var found := Selected(timers, userId, isActive == "true");
      && |items| == |found|
      && (forall k :: 0 <= k < |items| ==> items[k].timer == found[k])
    ensures forall v :: v in items ==>
      && v.timer.userId == userId && v.timer.isActive == (isActive == "true")
      && v.progress == (if isActive == "true" then Some(now - v.timer.start) else None)
      && v.id == (if isActive == "true" then Some(v.timer.id) else None)
  {
    var active := isActive == "true";
    var found := Selected(timers, userId, active);
    var items := seq(|found|, k requires 0 <= k < |found| =>
      if active then TimerView(found[k], Some(now - found[k].start), Some(found[k].id))
      else TimerView(found[k], None, None));
    items
  }

  /** `findIsActiv`: the query, then the `forEach` that decorates each active item in place. */
  method FindIsActiv(timers: seq<Timer>, isActive: string, userId: Id, now: int) returns (items: seq<TimerView>)
    ensures items == Listing(timers, isActive, userId, now)
  {
    var active := isActive == "true";
    var found := Selected(timers, userId, active);
    items := seq(|found|, k requires 0 <= k < |found| => TimerView(found[k], None, None));
    if active {
      var i := 0;
      while i < |items|
        invariant 0 <= i <= |items| == |found|
        invariant forall k :: 0 <= k < i ==>
          items[k] == TimerView(found[k], Some(now - found[k].start), Some(found[k].id))
        invariant forall k :: i <= k < |items| ==> items[k] == TimerView(found[k], None, None)
      {
        var item := items[i];
        items := items[i := item.(progress := Some(now - item.timer.start), id := Some(item.timer.id))];
        i := i + 1;
      }
    }
  }

  /**
   * In a consistent store an active listing carries no `duration`, and a
   * stopped one always carries the duration `end - start` fixed at the stop.
   */
  lemma ListingDurations(timers: seq<Timer>, isActive: string, userId: Id, now: int)
    requires forall t :: t in timers ==> Consistent(t)
    ensures forall v :: v in Listing(timers, isActive, userId, now) ==>
      && (v.timer.duration.Some? <==> isActive != "true")
      && (v.timer.duration.Some? ==> v.timer.end.Some? && v.timer.duration.value == v.timer.end.value - v.timer.start)
  {
  }

  /** The three collections. */
  class Store {
    var users: seq<User>
    var sessions: map<Token, Id>
    var timers: seq<Timer>

    ghost predicate Valid()
      reads this
    {
      && UserIdsDistinct(users)
      && TimerIdsDistinct(timers)
      && (forall t :: t in timers ==> Consistent(t))
      && (forall token :: token in sessions ==> exists u :: u in users && u.id == sessions[token])
    }

    constructor ()
      ensures Valid()
      ensures users == [] && sessions == map[] && timers == []
    {
      users, sessions, timers := [], map[], [];
    }

    /** The user the `auth()` middleware attaches to the request. */
    function Caller(header: Option<string>): Option<User>
      reads this
    {
      Resolve(users, sessions, header)
    }

    /** `createSession`: a fresh token bound to `userId`. */
    method CreateSession(userId: Id) returns (token: Token)
      requires Valid()
      requires exists u :: u in users && u.id == userId
      modifies this
      ensures Valid()
      ensures token != "" && token !in old(sessions)
      ensures sessions == old(sessions)[token := userId]
      ensures users == old(users) && timers == old(timers)
    {
      token := FreshNames.NewName(sessions.Keys);
      sessions := sessions[token := userId];
    }

    /** `POST /login`. */
    method Login(username: string, password: string) returns (r: LoginReply)
      requires Valid()
      modifies this
      ensures Valid()
      ensures users == old(users) && timers == old(timers)
      ensures r.SessionReply? <==> CheckCredentials(old(users), username, password).Some?
      ensures r.CredentialsError? ==> sessions == old(sessions)
      ensures r.SessionReply? ==>
        r.token != "" && r.token !in old(sessions)
        && sessions == old(sessions)[r.token := CheckCredentials(old(users), username, password).value.id]
        && Caller(Some(r.token)) == CheckCredentials(old(users), username, password)
    {
      var user := UserByName(users, username);
      if user.None? || user.value.password != Hash(password) {
        return CredentialsError;
      }
      var token := CreateSession(user.value.id);
      BoundTokenResolves(users, old(sessions), token, user.value);
      r := SessionReply(token);
    }

    /** `POST /signup`: insert the user, then open a session for it. */
    method Signup(username: string, password: string) returns (token: Token)
      requires Valid()
      modifies this
      ensures Valid()
      ensures |users| == |old(users)| + 1 && users[..|old(users)|] == old(users)
      ensures users[|old(users)|].username == username
      ensures users[|old(users)|].password == Hash(password)
      ensures forall u :: u in old(users) ==> u.id != users[|old(users)|].id
      ensures token != "" && token !in old(sessions)
      ensures sessions == old(sessions)[token := users[|old(users)|].id]
      ensures Caller(Some(token)) == Some(users[|old(users)|])
      ensures timers == old(timers)
    {
      var id := FreshNames.NewName(set u | u in users :: u.id);
      var user := User(id, username, Hash(password));
      users := users + [user];
      assert users[|users| - 1] == user;
      token := CreateSession(id);
      BoundTokenResolves(users, old(sessions), token, user);
    }

    /** `GET /api/timers?isActive=…`: 401 without a caller, no answer without the parameter. */
    method ListTimers(header: Option<string>, isActive: Option<string>, now: int) returns (r: ListReply)
      requires Valid()
      ensures Caller(header).None? ==> r == ListUnauthorized
      ensures Caller(header).Some? && isActive.None? ==> r == NoReply
      ensures Caller(header).Some? && isActive.Some? ==>
        r == Listed(Listing(timers, isActive.value, Caller(header).value.id, now))
      ensures r.Listed? ==> forall v :: v in r.items ==> (v.timer.duration.Some? <==> isActive.value != "true")
    {
      var user := Caller(header);
      if user.None? {
        return ListUnauthorized;
      }
      if isActive.None? {
        return NoReply;
      }
      var items := FindIsActiv(timers, isActive.value, user.value.id, now);
      ListingDurations(timers, isActive.value, user.value.id, now);
      r := Listed(items);
    }

    /** `POST /api/timers` (`createTimer`). */
    method CreateTimer(header: Option<string>, description: string, now: int) returns (r: CreateReply)
      requires Valid()
      modifies this
      ensures Valid()
      ensures users == old(users) && sessions == old(sessions)
      ensures r.Status() == 201 <==> old(Caller(header)).Some?
      ensures old(Caller(header)).None? ==> r == CreateUnauthorized && timers == old(timers)
      ensures old(Caller(header)).Some? ==>
        && r.Created?
        && (forall t :: t in old(timers) ==> t.id != r.id)
        && timers == old(timers) + [Timer(r.id, now, description, true, old(Caller(header)).value.id, None, None)]
    {
      var user := Caller(header);
      if user.None? {
        return CreateUnauthorized;
      }
      var id := FreshNames.NewName(set t | t in timers :: t.id);
      timers := timers + [Timer(id, now, description, true, user.value.id, None, None)];
      r := Created(id);
    }

    /** `POST /api/timers/:id/stop`: the caller's identity plays no part. */
    method StopTimer(id: string, now: int) returns (r: StopReply)
      requires Valid()
      modifies this
      ensures Valid()
      ensures users == old(users) && sessions == old(sessions)
      ensures (r, timers) == Stop(old(timers), id, now)
      ensures r.Status() == 404 <==> forall t :: t in old(timers) ==> t.id != id
    {
      StopKeepsInvariant(timers, id, now);
      var k := TimerIndex(timers, id);
      if k == |timers| {
        return StopNotFound;
      }
      var updated := StopRecord(timers[k], now);
      r := if updated == timers[k] then StopNotModified else StopNoContent;
      timers := timers[k := updated];
    }

    /** `deleteSession`. */
    method DeleteSession(token: Token)
      requires Valid()
      modifies this
      ensures Valid()
      ensures sessions == old(sessions) - {token}
      ensures users == old(users) && timers == old(timers)
    {
      sessions := sessions - {token};
    }

    /** `GET /logout`. */
    method Logout(header: Option<string>) returns (r: LogoutReply)
      requires Valid()
      modifies this
      ensures Valid()
      ensures users == old(users) && timers == old(timers)
      ensures old(Caller(header)).None? ==> r == LogoutError && sessions == old(sessions)
      ensures old(Caller(header)).Some? ==> r == LoggedOut && sessions == old(sessions) - {header.value}
    {
      if Caller(header).None? {
        return LogoutError;
      }
      DeleteSession(header.value);
      r := LoggedOut;
    }
  }
}
