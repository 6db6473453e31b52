/**
 * The command-line client of client/js/timer.js: the table rows it builds,
 * the `status` dispatch, and the guards around the locally stored session
 * token. Server answers are parameters; the HTTP, file and prompt calls
 * themselves are not modelled.
 */
module TimerClient {
  import opened Wrappers
  import opened Search
  import opened TimeFormat

  /** One element of a `GET /api/timers` answer as the client reads it. */
  datatype Item = Item(id: string, description: string, isActive: bool,
                       duration: Option<int>, progress: Option<int>)

  /** A row pushed into the `cli-table`: ID, Task, Time. */
  datatype Row = Row(id: string, task: string, time: string)

  /** What `status` ends with: nothing, a message, or a table of timers. */
  datatype StatusMessage =
    | Silent                      // no stored session
    | NoActiveTimers              // "You have no active timers."
    | NoOldTimers                 // "You have no old tomers."
    | UnknownTimerId(id: string)  // "Unknown timer ID …"
    | Shown(items: seq<Item>)     // `showTable(items)`

  /** What the `stop` command prints. */
  datatype StopMessage = StopUsage | StopSilent | TimerStopped(id: string) | UnknownTimer(id: string)

  /** JavaScript truthiness of an optional string: present and not empty. */
  predicate Truthy(s: Option<string>)
  {
    s.Some? && s.value != ""
  }

  /** `formatTime` of a field that may be missing: `undefined` makes every field NaN, rendered "00". */
  function FormatField(ts: Option<int>): (s: string)
    ensures ts.None? ==> s == "00:00:00"
    ensures ts.Some? ==> s == FormatTime(ts.value)
  {
    if ts.Some? then FormatTime(ts.value) else "00:00:00"
  }

  /** The `data.map` callback of `showTable`; `arg` is the command's third argument. */
  function MakeRow(item: Item, arg: Option<string>): (row: Row)
    ensures row.id == item.id
    ensures row.task == item.description + " (stopped)" <==> !item.isActive && arg != Some("old")
    ensures row.task == item.description + " " <==> item.isActive || arg == Some("old")
    ensures row.time == FormatField(if item.isActive then item.progress else item.duration)
  {
    Row(item.id,
        item.description + " " + (if item.isActive || arg == Some("old") then "" else "(stopped)"),
        FormatField(if !item.isActive then item.duration else item.progress))
  }

  /** `data.map(...)` in `showTable`. */
  function Rows(data: seq<Item>, arg: Option<string>): (rows: seq<Row>)
    ensures |rows| == |data|
    ensures forall i :: 0 <= i < |data| ==>
      && rows[i].id == data[i].id
      && (rows[i].task == data[i].description + " (stopped)" <==> !data[i].isActive && arg != Some("old"))
      && (rows[i].task == data[i].description + " " <==> data[i].isActive || arg == Some("old"))
      && rows[i].time == FormatField(if data[i].isActive then data[i].progress else data[i].duration)
  {
    seq(|data|, i requires 0 <= i < |data| => MakeRow(data[i], arg))
  }

  /** `arr.find((el) => el._id === id)`. */
  function FindById(items: seq<Item>, id: string): (r: Option<Item>)
    ensures r.None? <==> forall el :: el in items ==> el.id != id
    ensures r.Some? ==> r.value in items && r.value.id == id
    ensures r.Some? ==>
      exists k :: 0 <= k < |items| && items[k] == r.value && forall j :: 0 <= j < k ==> items[j].id != id
  {
    First(items, (el: Item) => el.id == id)
  }

  /**
   * The `status` command after `getSessionId`: the `isActive` queries it
   * sends, in order, and how it ends. `active` and `stopped` are the
   * server's answers to `isActive=true` and `isActive=false`.
   */
  function StatusPlan(token: Option<string>, arg: Option<string>, active: seq<Item>, stopped: seq<Item>)
    : (r: (seq<string>, StatusMessage))
    ensures !Truthy(token) ==> r == ([], Silent)
    ensures Truthy(token) && !Truthy(arg) ==>
      r.0 == ["true"] && (r.1 == NoActiveTimers <==> active == []) && (active != [] ==> r.1 == Shown(active))
    ensures Truthy(token) && arg == Some("old") ==>
      r.0 == ["false"] && (r.1 == NoOldTimers <==> stopped == []) && (stopped != [] ==> r.1 == Shown(stopped))
    ensures Truthy(token) && Truthy(arg) && arg != Some("old") ==>
      && r.0 == ["true", "false"]
      && (r.1 == UnknownTimerId(arg.value) || r.1.Shown?)
      && (r.1 == UnknownTimerId(arg.value) <==> forall el :: el in active + stopped ==> el.id != arg.value)
      && (r.1.Shown? ==> |r.1.items| == 1 && r.1.items[0].id == arg.value)
      && (r.1.Shown? ==> exists k :: (0 <= k < |active + stopped| && (active + stopped)[k] == r.1.items[0]
            && forall j :: 0 <= j < k ==> (active + stopped)[j].id != arg.value))
      && (r.1.Shown? && (exists el :: el in active && el.id == arg.value) ==> r.1.items[0] in active)
      && (r.1.Shown? && (forall el :: el in active ==> el.id != arg.value) ==> r.1.items[0] in stopped)
  {
    if !Truthy(token) then ([], Silent)
    else if Truthy(arg) then
      if arg.value == "old" then
        (["false"], if |stopped| == 0 then NoOldTimers else Shown(stopped))
      else
        FirstOfConcat(active, stopped, (el: Item) => el.id == arg.value);
        match FindById(active + stopped, arg.value)
        case None => (["true", "false"], UnknownTimerId(arg.value))
        case Some(timer) => (["true", "false"], Shown([timer]))
    else
      (["true"], if |active| == 0 then NoActiveTimers else Shown(active))
  }

  /** The client's state: the session file and the module-level table. */
  class Cli {
    /** Contents of the session file; `None` when there is no file. */
    var session: Option<string>
    /** Rows pushed so far into the shared `cli-table`. */
    var table: seq<Row>

    constructor ()
      ensures session == None && table == []
    {
      session, table := None, [];
    }

    /** `getSessionId` with the `if (!sessionId) return` guard that follows each call. */
    function Token(): (t: Option<string>)
      reads this
      ensures t.Some? <==> Truthy(session)
      ensures t.Some? ==> t == session
    {
      if Truthy(session) then session else None
    }

    /** `updateSessionFile`: remove the old file (a missing one is fine), write the new token. */
    method UpdateSessionFile(token: string)
      modifies this
      ensures session == Some(token) && table == old(table)
    {
      DeleteSessionFile();
      session := Some(token);
    }

    /** `deleteSessionFile`. */
    method DeleteSessionFile()
      modifies this
      ensures session == None && table == old(table)
    {
      session := None;
    }

    /**
     * `signupOfLogin` once the server answered with `sessionId`: only a
     * present token replaces the stored one; the result says whether
     * "Wrong username or password!" is printed.
     */
    method SignupOrLogin(pathname: string, sessionId: Option<string>) returns (wrongCredentials: bool)
      modifies this
      ensures table == old(table)
      ensures !Truthy(sessionId) ==> session == old(session) && wrongCredentials == (pathname == "login")
      ensures Truthy(sessionId) ==> session == sessionId && !wrongCredentials
    {
      if !Truthy(sessionId) {
        return pathname == "login";
      }
      UpdateSessionFile(sessionId.value);
      wrongCredentials := false;
    }

    /**
     * `logout`: without a stored token nothing is sent; otherwise the token
     * goes out in `X-SessionId` and, once the server has answered, the file
     * is removed.
     */
    method Logout(answered: bool) returns (sent: Option<string>)
      modifies this
      ensures table == old(table)
      ensures sent == old(Token())
      ensures sent.None? || !answered ==> session == old(session)
      ensures sent.Some? && answered ==> session == None
    {
      sent := Token();
      if sent.None? {
        return;
      }
      if answered {
        DeleteSessionFile();
      }
    }

    /**
     * `start`: with no description only the usage hint is printed; with no
     * stored token nothing is sent; otherwise the request carries both.
     */
    method Start(arg: Option<string>) returns (sent: Option<(string, string)>)
      ensures !Truthy(arg) || !Truthy(session) ==> sent.None?
      ensures Truthy(arg) && Truthy(session) ==> sent == Some((session.value, arg.value))
    {
      if !Truthy(arg) {
        return None;
      }
      var token := Token();
      if token.None? {
        return None;
      }
      sent := Some((token.value, arg.value));
    }

    /**
     * `stop`: the same guards as `start`; the id goes in the URL. `status`
     * is the server's answer, and anything but 204 ends in "Unknown timer ID".
     */
    method Stop(arg: Option<string>, status: int) returns (sent: Option<string>, message: StopMessage)
      ensures !Truthy(arg) ==> sent.None? && message == StopUsage
      ensures Truthy(arg) && !Truthy(session) ==> sent.None? && message == StopSilent
      ensures Truthy(arg) && Truthy(session) ==>
        sent == Some(arg.value)
        && (message == TimerStopped(arg.value) <==> status == 204)
        && (message == UnknownTimer(arg.value) <==> status != 204)
    {
      if !Truthy(arg) {
        return None, StopUsage;
      }
      var token := Token();
      if token.None? {
        return None, StopSilent;
      }
      sent := Some(arg.value);
      message := if status == 204 then TimerStopped(arg.value) else UnknownTimer(arg.value);
    }

    /** `showTable`: build the rows, then push each onto the shared table. */
    method ShowTable(data: seq<Item>, arg: Option<string>)
      modifies this
      ensures table == old(table) + Rows(data, arg)
      ensures session == old(session)
    {
      var rows := Rows(data, arg);
      var i := 0;
      while i < |rows|
        invariant 0 <= i <= |rows|
        invariant table == old(table) + rows[..i]
        invariant session == old(session)
      {
        table := table + [rows[i]];
        i := i + 1;
      }
    }

    /** `status`: the queries of `StatusPlan`, and its timers appended to the table. */
    method Status(arg: Option<string>, active: seq<Item>, stopped: seq<Item>)
      returns (queries: seq<string>, message: StatusMessage)
      modifies this
      ensures (queries, message) == StatusPlan(old(Token()), arg, active, stopped)
      ensures session == old(session)
      ensures table == old(table) + (if message.Shown? then Rows(message.items, arg) else [])
    {
      var plan := StatusPlan(Token(), arg, active, stopped);
      queries, message := plan.0, plan.1;
      if message.Shown? {
        ShowTable(message.items, arg);
      }
    }
  }
}
