/**
 The ledger as the bot keeps it: one object whose fields every command handler
 and the daily timer update in place. Loading and saving the data file around
 each operation are left out, so the object stands for the file's contents.
 Every method is proved to leave the object in the state that the function of
 the same name in module Ledger or Bot describes.
 */
module Store {
  import opened Ledger
  import Bot

  class ChallengeLedger {
    var users: map<string, User>
    var order: seq<string>   // the order a `for…in` loop visits `users` in
    var chatIds: seq<int>

    /** The value the fields hold. */
    function State(): Snapshot
      reads this
    {
      Snapshot(users, order, chatIds)
    }

    /** The visiting order lists every registered id exactly once. */
    ghost predicate Valid()
      reads this
    {
      Ledger.Valid(State())
    }

    /** The ledger of a fresh data file: no users, no chat ids. */
    constructor ()
      ensures Valid() && State() == Empty()
    {
      users, order, chatIds := map[], [], [];
    }

    method AddUser(id: string, name: string)
      requires Valid()
      modifies this
      ensures Valid() && State() == Ledger.AddUser(old(State()), id, name)
    {
      if id !in users {
        users := users[id := User(name, 0, 0)];
        order := order + [id];
      }
    }

    method CompletePushups(id: string, count: int)
      requires Valid()
      modifies this
      ensures Valid() && State() == Ledger.CompletePushups(old(State()), id, count)
    {
      if id !in users {
        return;
      }
      var user := users[id];
      user := user.(total := user.total + count);
      if user.debt > 0 {
        var paid := Min(user.debt, count);
        user := user.(debt := user.debt - paid);
      }
      users := users[id := user];
    }

    method ResetStats(id: string)
      requires Valid()
      modifies this
      ensures Valid() && State() == Ledger.ResetStats(old(State()), id)
    {
      if id !in users {
        return;
      }
      users := users[id := users[id].(total := 0)];
      users := users[id := users[id].(debt := 0)];
    }

    /**
     The scheduled report: renders each user's line, then charges the day's
     quota, on a loaded copy of the users that is written back when the loop ends.
     */
    method SendDailyReport(nowMs: int) returns (report: Report)
      requires Valid()
      modifies this
      ensures Valid()
      ensures report == Announcement(old(State()), nowMs)
      ensures State() == DailyAccrual(old(State()), nowMs)
    {
      var day := DayNumber(nowMs);
      var required := RequiredPushups(day);
      ghost var before := State();
      var charged, ids := users, order;
      var lines: seq<User> := [];
      var i := 0;
      while i < |ids|
        invariant ids == before.order
        invariant ReportedPrefix(before, required, i, charged, lines)
        modifies {}
      {
        ReportedPrefixStep(before, required, i, charged, lines);
        var id := ids[i];
        var user := charged[id];
        lines := lines + [user];
        charged := charged[id := user.(debt := user.debt + required)];
        i := i + 1;
      }
      ReportedAll(before, nowMs, required, i, charged, lines);
      users := charged;
      report := Report(day, required, lines);
    }

    method SaveChatIdIfMissing(chatId: int)
      requires Valid()
      modifies this
      ensures Valid() && State() == Ledger.SaveChatIdIfMissing(old(State()), chatId)
    {
      if chatId !in chatIds {
        chatIds := chatIds + [chatId];
      }
    }

    /** `/start` */
    method OnStart(id: string, name: string) returns (reply: Bot.Reply)
      requires Valid()
      modifies this
      ensures Valid()
      ensures Bot.OnStart(old(State()), id, name) == Bot.Outcome(reply, State())
    {
      if id !in users {
        AddUser(id, name);
        reply := Bot.Joined(name);
      } else {
        reply := Bot.AlreadyJoined(name);
      }
    }

    /** `/pushups N` */
    method OnPushups(id: string, name: string, count: int) returns (reply: Bot.Reply)
      requires Valid()
      modifies this
      ensures Valid()
      ensures Bot.OnPushups(old(State()), id, name, count) == Bot.Outcome(reply, State())
    {
      if count <= 0 {
        return Bot.CountHint;
      }
      AddUser(id, name);
      CompletePushups(id, count);
      reply := Bot.Accepted(name, count);
    }

    /** `/stats`: builds the roster line by line. */
    method OnStats() returns (reply: Bot.Reply)
      requires Valid()
      ensures reply == Bot.OnStats(State())
    {
      if |users| == 0 {
        return Bot.Notice(Bot.NoParticipantsText);
      }
      OrderCoversRoster(State());
      var lines: seq<User> := [];
      for i := 0 to |order|
        invariant lines == Lines(users, order[..i])
      {
        assert order[..i + 1] == order[..i] + [order[i]];
        lines := lines + [users[order[i]]];
      }
      assert order[..|order|] == order;
      reply := Bot.Roster(lines);
    }

    /** `/me` */
    method OnMe(id: string) returns (reply: Bot.Reply)
      ensures reply == Bot.OnMe(State(), id)
    {
      if id !in users {
        return Bot.Notice(Bot.NotJoinedText);
      }
      reply := Bot.Profile(users[id]);
    }

    /** `/resetme` */
    method OnResetMe(id: string) returns (reply: Bot.Reply)
      requires Valid()
      modifies this
      ensures Valid()
      ensures Bot.OnResetMe(old(State()), id) == Bot.Outcome(reply, State())
    {
      if id !in users {
        return Bot.Notice(Bot.NotJoinedText);
      }
      ResetStats(id);
      reply := Bot.ResetDone;
    }
  }
}
