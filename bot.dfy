/**
 The bot's command handlers and its scheduled report, as functions of the
 ledger: what each command replies and which ledger it leaves behind, and what
 any sequence of commands and timer ticks does to the ledger's invariants.
 */
module Bot {
  import opened Ledger

  /** The reply to `/stats` when nobody has registered yet. */
  const NoParticipantsText: string := "Нет данных об участниках."

  /** The reply to `/me` and `/resetme` from somebody who has not registered. */
  const NotJoinedText: string := "Ты ещё не участвовал(а) в челендже."

  /** What the bot sends back to the chat a command came from. */
  datatype Reply =
    | Joined(name: string)                // first `/start`
    | AlreadyJoined(name: string)         // repeated `/start`
    | CountHint                           // `/pushups` with a count that is not positive
    | Accepted(name: string, count: int)  // `/pushups` recorded
    | Notice(text: string)                // one of the two fixed texts above
    | Roster(lines: seq<User>)            // `/stats`, one line per user
    | Profile(user: User)                 // `/me`
    | ResetDone                           // `/resetme` done

  /** A reply together with the ledger the command leaves behind. */
  datatype Outcome = Outcome(reply: Reply, after: Snapshot)

  /** `/start`: registers the sender unless already registered. */
  function OnStart(s: Snapshot, id: string, name: string): (o: Outcome)
    ensures o.reply.Joined? <==> id !in s.users
    ensures id in o.after.users
    ensures id in s.users ==> o.after == s
    ensures id !in s.users ==> o.after.users[id] == User(name, 0, 0)
    ensures id !in s.users ==> o.after == AddUser(s, id, name)
    ensures forall k :: k in o.after.users <==> k in s.users || k == id
    ensures forall k :: k in s.users ==> o.after.users[k] == s.users[k]
    ensures id !in s.users ==> o.after.order == s.order + [id]
    ensures o.after.chatIds == s.chatIds
  {
    if id !in s.users then Outcome(Joined(name), AddUser(s, id, name))
    else Outcome(AlreadyJoined(name), s)
  }

  /** `/pushups N`: rejects a count that is not positive, otherwise registers and completes. */
  function OnPushups(s: Snapshot, id: string, name: string, count: int): (o: Outcome)
    ensures o.reply == CountHint <==> count <= 0
    ensures count <= 0 ==> o.after == s
    ensures count > 0 ==> o.reply == Accepted(name, count) && id in o.after.users
    ensures count > 0 && id !in s.users ==> o.after.users[id] == User(name, count, 0)
    ensures count > 0 && id in s.users ==>
              && o.after.users[id].name == s.users[id].name
              && o.after.users[id].total == s.users[id].total + count
    ensures count > 0 && id in s.users && s.users[id].debt >= 0 ==>
              o.after.users[id].debt == Max(0, s.users[id].debt - count)
    ensures count > 0 ==> o.after == CompletePushups(AddUser(s, id, name), id, count)
    ensures count > 0 ==> forall k :: k in o.after.users <==> k in s.users || k == id
    ensures forall k :: k in s.users && k != id ==> k in o.after.users && o.after.users[k] == s.users[k]
    ensures o.after.order == if count > 0 && id !in s.users then s.order + [id] else s.order
    ensures o.after.chatIds == s.chatIds
  {
    if count <= 0 then Outcome(CountHint, s)
    else Outcome(Accepted(name, count), CompletePushups(AddUser(s, id, name), id, count))
  }

  /** `/stats`: the fixed notice for an empty roster, otherwise one line per user. */
  function OnStats(s: Snapshot): (r: Reply)
    requires Valid(s)
    ensures |s.users| == 0 <==> r == Notice(NoParticipantsText)
    ensures |s.users| > 0 ==> r.Roster? && |r.lines| == |s.users|
    ensures r.Roster? ==> |r.lines| == |s.order| && forall i :: 0 <= i < |s.order| ==> r.lines[i] == s.users[s.order[i]]
  {
    OrderCoversRoster(s);
    if |s.users| == 0 then Notice(NoParticipantsText)
    else Roster(Lines(s.users, s.order))
  }

  /** `/me`: the sender's record, or the not-registered notice. */
  function OnMe(s: Snapshot, id: string): (r: Reply)
    ensures r == Notice(NotJoinedText) <==> id !in s.users
    ensures id in s.users ==> r == Profile(s.users[id])
  {
    if id !in s.users then Notice(NotJoinedText)
    else Profile(s.users[id])
  }

  /** `/resetme`: zeroes the sender's counters, or the not-registered notice and no change. */
  function OnResetMe(s: Snapshot, id: string): (o: Outcome)
    ensures id !in s.users ==> o.reply == Notice(NotJoinedText) && o.after == s
    ensures id in s.users ==> o.reply == ResetDone
    ensures id in s.users ==> id in o.after.users && o.after.users[id] == User(s.users[id].name, 0, 0)
    ensures forall k :: k in s.users && k != id ==> k in o.after.users && o.after.users[k] == s.users[k]
    ensures id in s.users ==> o.after == ResetStats(s, id)
    ensures o.after.users.Keys == s.users.Keys && o.after.order == s.order && o.after.chatIds == s.chatIds
  {
    if id !in s.users then Outcome(Notice(NotJoinedText), s)
    else Outcome(ResetDone, ResetStats(s, id))
  }

  /** Everything that reaches the ledger: a command, a timer tick, a new chat id. */
  datatype Event =
    | Start(id: string, name: string)
    | Pushups(id: string, name: string, count: int)
    | Stats
    | Me(id: string)
    | ResetMe(id: string)
    | DailyReport(nowMs: int)
    | SaveChat(chatId: int)

  /** The ledger an event leaves behind. */
  function Step(s: Snapshot, e: Event): Snapshot
  {
    match e
    case Start(id, name) => OnStart(s, id, name).after
    case Pushups(id, name, count) => OnPushups(s, id, name, count).after
    case Stats => s
    case Me(_) => s
    case ResetMe(id) => OnResetMe(s, id).after
    case DailyReport(nowMs) => DailyAccrual(s, nowMs)
    case SaveChat(chatId) => SaveChatIdIfMissing(s, chatId)
  }

  /** The ledger after handling the events one at a time, in order. */
  function Run(s: Snapshot, es: seq<Event>): Snapshot
    decreases es
  {
    if es == [] then s else Run(Step(s, es[0]), es[1..])
  }

  /** No timer tick comes before the start of day -9. */
  ghost predicate Timely(es: seq<Event>)
  {
    forall i :: 0 <= i < |es| && es[i].DailyReport? ==> es[i].nowMs >= EarliestSafeMs
  }

  lemma StepKeepsInvariants(s: Snapshot, e: Event)
    requires Valid(s) && NonNegative(s)
    requires e.DailyReport? ==> e.nowMs >= EarliestSafeMs
    ensures Valid(Step(s, e)) && NonNegative(Step(s, e))
  {
    match e
    case Start(id, name) => AddUserKeepsInvariants(s, id, name);
    case Pushups(id, name, count) =>
      if count > 0 {
        AddUserKeepsInvariants(s, id, name);
        CompleteKeepsInvariants(AddUser(s, id, name), id, count);
      }
    case Stats =>
    case Me(_) =>
    case ResetMe(id) => ResetKeepsInvariants(s, id);
    case DailyReport(nowMs) => AccrualKeepsInvariants(s, nowMs);
    case SaveChat(chatId) =>
  }

  /** Debts and totals stay non-negative through any run without too-early ticks. */
  lemma {:induction false} RunKeepsInvariants(s: Snapshot, es: seq<Event>)
    requires Valid(s) && NonNegative(s) && Timely(es)
    ensures Valid(Run(s, es)) && NonNegative(Run(s, es))
    decreases es
  {
    if es != [] {
      StepKeepsInvariants(s, es[0]);
      assert Timely(es[1..]) by {
        forall i | 0 <= i < |es[1..]| && es[1..][i].DailyReport?
          ensures es[1..][i].nowMs >= EarliestSafeMs
        {
          assert es[1..][i] == es[i + 1];
        }
      }
      RunKeepsInvariants(Step(s, es[0]), es[1..]);
    }
  }

  /** No event deletes a user, and the chat ids only grow at the end. */
  lemma {:induction false} RunKeepsUsersAndChats(s: Snapshot, es: seq<Event>)
    ensures s.users.Keys <= Run(s, es).users.Keys
    ensures s.chatIds <= Run(s, es).chatIds
    decreases es
  {
    if es != [] {
      RunKeepsUsersAndChats(Step(s, es[0]), es[1..]);
    }
  }

  /** The roster lists every registered user. */
  lemma RosterShowsEveryone(s: Snapshot, id: string)
    requires Valid(s) && id in s.users
    ensures OnStats(s).Roster?
    ensures exists i :: 0 <= i < |OnStats(s).lines| && OnStats(s).lines[i] == s.users[id]
  {
    OrderListsEachUserOnce(s, id);
    var i :| 0 <= i < |s.order| && s.order[i] == id;
    assert OnStats(s).lines[i] == s.users[id];
  }

  /** A two-day run: register, report, complete, report, complete. */
  lemma TwoDayExample()
    ensures var s := Run(Empty(), [
              Start("42", "Alex"),
              DailyReport(StartMs + 8 * 3600000),
              Pushups("42", "Alex", 4),
              DailyReport(StartMs + MsPerDay + 8 * 3600000),
              Pushups("42", "Alex", 20)
            ]);
            "42" in s.users && s.users["42"] == User("Alex", 24, 0)
  {
    var e1, e2, e3 := Start("42", "Alex"), DailyReport(StartMs + 8 * 3600000), Pushups("42", "Alex", 4);
    var e4, e5 := DailyReport(StartMs + MsPerDay + 8 * 3600000), Pushups("42", "Alex", 20);
    var s1 := Step(Empty(), e1);
    assert s1.users["42"] == User("Alex", 0, 0);
    var s2 := Step(s1, e2);
    assert "42" in s2.users && s2.users["42"] == User("Alex", 0, 10) by {
      DayNumberOfDay(1, 8 * 3600000);
    }
    var s3 := Step(s2, e3);
    assert s3.users["42"] == User("Alex", 4, 6);
    var s4 := Step(s3, e4);
    assert "42" in s4.users && s4.users["42"] == User("Alex", 4, 17) by {
      DayNumberOfDay(2, 8 * 3600000);
    }
    var s5 := Step(s4, e5);
    assert s5.users["42"] == User("Alex", 24, 0);
    assert Run(s4, [e5]) == s5 by { assert Run(s5, []) == s5; }
    assert Run(s3, [e4, e5]) == s5 by { assert [e4, e5][1..] == [e5]; }
    assert Run(s2, [e3, e4, e5]) == s5 by { assert [e3, e4, e5][1..] == [e4, e5]; }
    assert Run(s1, [e2, e3, e4, e5]) == s5 by { assert [e2, e3, e4, e5][1..] == [e3, e4, e5]; }
    assert [e1, e2, e3, e4, e5][1..] == [e2, e3, e4, e5];
  }
}
