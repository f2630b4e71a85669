/**
 Nothing is lost for good: whatever state a run has reached, even if the broker then loses every task
 and every worker dies, an unfinished message can still be sent.
 */
module Recovery {
  import opened Options
  import opened Messages
  import opened Protocol
  import opened Ownership
  import opened Records
  import opened Exclusion
  import opened Overlap

  /** How a delivery disappears: lost by the broker, with its worker, or acknowledged. */
  function Vanishing(s: State, tag: Tag): Event
    requires tag in s.live
  {
    match s.live[tag].phase
    case Waiting(_) => Lose(tag)
    case Running(_, _, _) => Crash(tag, false)
    case Finished => Ack(tag)
  }

  lemma DeliveryVanishes(s: State, tag: Tag)
    requires tag in s.live
    ensures var t := Step(s, Vanishing(s, tag));
            t.live == s.live - {tag} && t.db == s.db && t.now == s.now
  {
  }

  /** The broker is emptied and the workers are gone; the tables stay. */
  lemma {:induction false} AllVanish(start: Time, before: seq<Event>) returns (es: seq<Event>)
    ensures var s, t := Exec(start, before), Exec(start, es);
            before <= es && t.live == map[] && t.db == s.db && t.now == s.now
    decreases |Exec(start, before).live|
  {
    var s := Exec(start, before);
    hide Exec;
    if s.live == map[] {
      es := before;
    } else {
      var tag :| tag in s.live;
      ExecSnoc(start, before, Vanishing(s, tag));
      DeliveryVanishes(s, tag);
      hide Step, Vanishing;
      var more := before + [Vanishing(s, tag)];
      assert (s.live - {tag}).Keys == s.live.Keys - {tag};
      assert |s.live| == |s.live.Keys| && |s.live - {tag}| == |(s.live - {tag}).Keys|;
      es := AllVanish(start, more);
    }
  }

  lemma {:induction false} NewTaskId(used: set<TaskId>) returns (t: TaskId)
    ensures t != "" && t !in used && forall u :: u in used ==> |u| < |t|
    decreases used
  {
    if used == {} {
      t := "a";
    } else {
      var u :| u in used;
      var rest := NewTaskId(used - {u});
      t := if |u| < |rest| then rest else u + "a";
      forall v | v in used ensures |v| < |t| { assert v != u ==> v in used - {u}; }
    }
  }

  /** A dispatch pass after the deadline stamps the message. */
  lemma Restamped(start: Time, before: seq<Event>, m: MsgId) returns (es: seq<Event>, stamp: Time)
    requires var s := Exec(start, before);
             s.live == map[] && m in s.db.rows && !Terminal(s.db.rows[m].status)
    ensures var t := Exec(start, es);
            && before <= es && t.live == map[] && Publication(m, stamp) in t.log.outbox
            && m in t.db.rows && t.db.rows[m].status.Queued?
  {
    var s := Exec(start, before);
    stamp := if s.now <= Deadline(s.db.rows[m]) then Deadline(s.db.rows[m]) + 1 else s.now;
    NothingIsStranded(start, before, m, stamp);
    hide Exec, Selected, Deadline;
    ExecSnoc(start, before, Tick(stamp));
    var ticked := before + [Tick(stamp)];
    var u := Exec(start, ticked);
    assert u == s.(now := stamp);
    ExecSnoc(start, ticked, Dispatch(stamp, {m}));
    es := ticked + [Dispatch(stamp, {m})];
    assert Enabled(u, Dispatch(stamp, {m}));
    assert Exec(start, es) == ApplyDispatch(u, stamp, {m});
  }

  /** Its new task is handed out and claims the row. */
  lemma ClaimedAgain(start: Time, before: seq<Event>, m: MsgId, stamp: Time) returns (es: seq<Event>)
    requires var s := Exec(start, before);
             && s.live == map[] && Publication(m, stamp) in s.log.outbox
             && m in s.db.rows && s.db.rows[m].status.Queued?
    ensures var t := Exec(start, es);
            before <= es && IsRunning(t, 0) && t.live[0].msg == m && t.live[0].phase.progress.Claimed? && m in t.db.rows
  {
    var s := Exec(start, before);
    hide Exec;
    var task := NewTaskId(s.log.published.Keys);
    var p := Publication(m, stamp);
    ExecSnoc(start, before, Publish(p, task, 0));
    var published := before + [Publish(p, task, 0)];
    var u := Exec(start, published);
    assert u == ApplyPublish(s, p, task, 0);
    ExecSnoc(start, published, Claim(0));
    es := published + [Claim(0)];
    assert Exec(start, es) == ApplyClaim(u, 0);
  }

  /**
   From every state of every run, and even if all tasks are lost first, an unfinished message can be
   sent: the dispatch job makes a new task of it, and nothing stands in the way of that task.
   */
  lemma {:induction false} UnfinishedMessagesCanBeSent(start: Time, before: seq<Event>, m: MsgId)
    returns (lost: seq<Event>, es: seq<Event>)
    requires m in Exec(start, before).db.rows && !Terminal(Exec(start, before).db.rows[m].status)
    ensures before <= lost <= es && Exec(start, lost).live == map[]
    ensures m in Exec(start, es).db.rows && Exec(start, es).db.rows[m].status == Sent
  {
    hide Exec;
    lost := AllVanish(start, before);
    var stamped, stamp := Restamped(start, lost, m);
    var claimed := ClaimedAgain(start, stamped, m, stamp);
    es := RunConcludes(start, claimed, 0, SUCCESS, Sent);
  }
}
