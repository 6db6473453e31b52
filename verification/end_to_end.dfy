/**
 * What the client prints for what the server answers: an element of a
 * `GET /api/timers` answer, read by the client, becomes a table row.
 */
module EndToEnd {
  import opened Wrappers
  import opened TimeFormat
  import TimerServer
  import TimerClient

  /** The JSON element of the server's answer as the client reads it (`_id` serialised as text). */
  function ToItem(v: TimerServer.TimerView): TimerClient.Item
  {
    TimerClient.Item(v.timer.id, v.timer.description, v.timer.isActive, v.timer.duration, v.progress)
  }

  /** A row of an active listing shows the live progress `now - start` and no "(stopped)" mark. */
  lemma {:induction false} ActiveRowShowsProgress(timers: seq<TimerServer.Timer>, userId: string, now: int, arg: Option<string>,
                               v: TimerServer.TimerView)
    requires v in TimerServer.Listing(timers, "true", userId, now)
    ensures var row := TimerClient.MakeRow(ToItem(v), arg);
      && row.id == v.timer.id
      && row.task == v.timer.description + " "
      && row.time == FormatTime(now - v.timer.start)
  {
    assert v.timer.isActive && v.progress == Some(now - v.timer.start);
    var item := ToItem(v);
    assert item.progress.value == now - v.timer.start;
    ActiveItemRow(item, arg);
  }

  /** The row of an item marked active with a progress value. */
  lemma ActiveItemRow(item: TimerClient.Item, arg: Option<string>)
    requires item.isActive && item.progress.Some?
    ensures var row := TimerClient.MakeRow(item, arg);
      && row.id == item.id
      && row.task == item.description + " "
      && row.time == FormatTime(item.progress.value)
  {
  }

  /**
   * In a consistent store, a row of a stopped listing shows the duration
   * frozen at the stop, `end - start`, marked "(stopped)" unless the
   * command's argument is "old".
   */
  lemma {:induction false} StoppedRowShowsDuration(timers: seq<TimerServer.Timer>, isActive: string, userId: string, now: int,
                                arg: Option<string>, v: TimerServer.TimerView)
    requires forall t :: t in timers ==> TimerServer.Consistent(t)
    requires isActive != "true"
    requires v in TimerServer.Listing(timers, isActive, userId, now)
    ensures var row := TimerClient.MakeRow(ToItem(v), arg);
      && v.timer.end.Some? && v.timer.duration == Some(v.timer.end.value - v.timer.start)
      && row.time == FormatTime(v.timer.duration.value)
      && (row.task == v.timer.description + " (stopped)" <==> arg != Some("old"))
  {
    TimerServer.ListingDurations(timers, isActive, userId, now);
  }
}
