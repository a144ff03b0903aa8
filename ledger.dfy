/**
 The push-up challenge ledger, as values.

 A snapshot holds the registered users keyed by their Telegram id, the order in
 which a `for…in` loop over the users visits them, and the chat ids that the
 daily report is broadcast to. Every operation of the bot is a function from
 one snapshot to the next; the class in module Store performs the same steps
 in place and is proved against these functions.
 */
module Ledger {

  /** Push-ups required on the first day of the challenge. */
  const BaseQuota: int := 10

  /** Milliseconds in one day: the divisor of the day-number computation. */
  const MsPerDay: int := 1000 * 60 * 60 * 24

  /** The start of the challenge, 2025-05-09 at 00:00 UTC, in milliseconds since the epoch. */
  const StartMs: int := 1746748800000

  /** One participant: display name, push-ups done so far, push-ups still owed. */
  datatype User = User(name: string, total: int, debt: int)

  /** The whole persisted ledger. */
  datatype Snapshot = Snapshot(users: map<string, User>, order: seq<string>, chatIds: seq<int>)

  /** The daily announcement: its header (day number and quota) and one line per user. */
  datatype Report = Report(day: int, required: int, lines: seq<User>)

  function Min(a: int, b: int): int { if a <= b then a else b }

  function Max(a: int, b: int): int { if a >= b then a else b }

  ghost predicate Distinct<T>(s: seq<T>)
  {
    forall i, j :: 0 <= i < j < |s| ==> s[i] != s[j]
  }

  /** The visiting order lists every registered id exactly once. */
  ghost predicate Valid(s: Snapshot)
  {
    && (forall k :: k in s.users <==> k in s.order)
    && Distinct(s.order)
  }

  /** Counters are never negative. */
  ghost predicate NonNegative(s: Snapshot)
  {
    forall k :: k in s.users ==> s.users[k].total >= 0 && s.users[k].debt >= 0
  }

  /** The ledger a fresh data file holds: no users and no chat ids. */
  function Empty(): (s: Snapshot)
    ensures Valid(s) && NonNegative(s) && |s.users| == 0 && s.chatIds == []
  {
    Snapshot(map[], [], [])
  }

  /** Registration: a record with zeroed counters, only for an id not yet present. */
  function AddUser(s: Snapshot, id: string, name: string): (r: Snapshot)
    ensures id in r.users
    ensures id in s.users ==> r == s
    ensures id !in s.users ==> r.users[id] == User(name, 0, 0) && r.order == s.order + [id]
    ensures forall k :: k in r.users <==> k in s.users || k == id
    ensures forall k :: k in s.users ==> r.users[k] == s.users[k]
    ensures r.chatIds == s.chatIds
  {
    if id in s.users then s
    else s.(users := s.users[id := User(name, 0, 0)], order := s.order + [id])
  }

  /** A completion on one record: the count goes to the total and pays off at most the debt. */
  function CompleteUser(u: User, count: int): (r: User)
    ensures r.name == u.name && r.total == u.total + count
    ensures u.debt <= 0 ==> r.debt == u.debt
    ensures u.debt >= 0 && count > 0 ==> r.debt == Max(0, u.debt - count)
    ensures u.debt >= 0 && count >= 0 ==> 0 <= r.debt <= u.debt
  {
    if u.debt > 0 then
      var paid := Min(u.debt, count);
      u.(total := u.total + count, debt := u.debt - paid)
    else
      u.(total := u.total + count)
  }

  /** A completion reported for `id`; an unknown id changes nothing. */
  function CompletePushups(s: Snapshot, id: string, count: int): (r: Snapshot)
    ensures id !in s.users ==> r == s
    ensures id in s.users ==> id in r.users && r.users[id] == CompleteUser(s.users[id], count)
    ensures r.users.Keys == s.users.Keys && r.order == s.order && r.chatIds == s.chatIds
    ensures forall k :: k in s.users && k != id ==> r.users[k] == s.users[k]
  {
    if id !in s.users then s
    else s.(users := s.users[id := CompleteUser(s.users[id], count)])
  }

  /** Zeroes both counters of `id`, keeping its name; an unknown id changes nothing. */
  function ResetStats(s: Snapshot, id: string): (r: Snapshot)
    ensures id !in s.users ==> r == s
    ensures id in s.users ==> id in r.users && r.users[id] == User(s.users[id].name, 0, 0)
    ensures r.users.Keys == s.users.Keys && r.order == s.order && r.chatIds == s.chatIds
    ensures forall k :: k in s.users && k != id ==> r.users[k] == s.users[k]
  {
    if id !in s.users then s
    else s.(users := s.users[id := s.users[id].(total := 0, debt := 0)])
  }

  /** Day 1 is the start date itself; the day number is the floor of the elapsed days, plus one. */
  function DayNumber(nowMs: int): (n: int)
    ensures n >= 1 <==> nowMs >= StartMs
  {
    (nowMs - StartMs) / MsPerDay + 1
  }

  /** Day `n` covers the `MsPerDay` milliseconds starting `n - 1` days after the start. */
  lemma DayNumberBounds(nowMs: int)
    ensures var n := DayNumber(nowMs);
            (n - 1) * MsPerDay <= nowMs - StartMs < n * MsPerDay
  {
  }

  /** The quota grows by one push-up per day from the base quota on day 1. */
  function RequiredPushups(day: int): (q: int)
    ensures day == 1 ==> q == BaseQuota
    ensures q >= 0 <==> day >= -9
  {
    BaseQuota + day - 1
  }

  /** One user's record after the day's quota is added to the debt. */
  function Charged(u: User, q: int): (r: User)
    ensures r.name == u.name && r.total == u.total
    ensures r.debt - u.debt == q
  {
    u.(debt := u.debt + q)
  }

  /** Daily accrual: every user's debt grows by `q`. */
  function Accrue(s: Snapshot, q: int): (r: Snapshot)
    ensures r.users.Keys == s.users.Keys && r.order == s.order && r.chatIds == s.chatIds
    ensures forall k :: k in s.users ==>
              && r.users[k].name == s.users[k].name
              && r.users[k].total == s.users[k].total
              && r.users[k].debt == s.users[k].debt + q
  {
    s.(users := map k | k in s.users :: Charged(s.users[k], q))
  }

  /** The users once the daily report's loop has charged the ids in `done`. */
  ghost function PartlyCharged(users: map<string, User>, done: seq<string>, q: int): (r: map<string, User>)
    ensures r.Keys == users.Keys
  {
    map k | k in users :: if k in done then Charged(users[k], q) else users[k]
  }

  /** Charging the next id of a duplicate-free order extends the charged prefix by that id. */
  lemma PartlyChargedStep(users: map<string, User>, order: seq<string>, i: nat, q: int)
    requires Distinct(order) && i < |order| && order[i] in users
    ensures order[i] in PartlyCharged(users, order[..i], q)
    ensures PartlyCharged(users, order[..i], q)[order[i]] == users[order[i]]
    ensures PartlyCharged(users, order[..i + 1], q)
            == PartlyCharged(users, order[..i], q)[order[i] := Charged(users[order[i]], q)]
  {
    assert order[i] !in order[..i];
    assert order[..i + 1] == order[..i] + [order[i]];
  }

  /** Once every id of the order is charged, the users are the accrued ones. */
  lemma PartlyChargedAll(s: Snapshot, q: int)
    requires Valid(s)
    ensures s.(users := PartlyCharged(s.users, s.order, q)) == Accrue(s, q)
  {
  }

  /** The records of `order`'s ids, in that order. */
  function Lines(users: map<string, User>, order: seq<string>): (r: seq<User>)
    requires forall k :: k in order ==> k in users
    ensures |r| == |order|
    ensures forall i :: 0 <= i < |order| ==> r[i] == users[order[i]]
  {
    if order == [] then []
    else Lines(users, order[..|order| - 1]) + [users[order[|order| - 1]]]
  }

  /** One more id adds its record as the last line. */
  lemma LinesStep(users: map<string, User>, order: seq<string>, i: nat)
    requires forall k :: k in order ==> k in users
    requires i < |order|
    ensures Lines(users, order[..i + 1]) == Lines(users, order[..i]) + [users[order[i]]]
  {
    assert order[..i + 1][..i] == order[..i];
  }

  /**
   The state of the scheduled report halfway through its loop over the first
   `i` ids: those ids are charged `q` and their lines rendered from `before`.
   */
  ghost predicate ReportedPrefix(before: Snapshot, q: int, i: int, users: map<string, User>, lines: seq<User>)
  {
    && Valid(before)
    && 0 <= i <= |before.order|
    && users == PartlyCharged(before.users, before.order[..i], q)
    && lines == Lines(before.users, before.order[..i])
  }

  /** The next id is still uncharged; rendering its line and charging it covers one id more. */
  lemma ReportedPrefixStep(before: Snapshot, q: int, i: int, users: map<string, User>, lines: seq<User>)
    requires ReportedPrefix(before, q, i, users, lines) && i < |before.order|
    ensures before.order[i] in users && users[before.order[i]] == before.users[before.order[i]]
    ensures ReportedPrefix(before, q, i + 1,
                           users[before.order[i] := Charged(users[before.order[i]], q)],
                           lines + [users[before.order[i]]])
  {
    PartlyChargedStep(before.users, before.order, i, q);
    LinesStep(before.users, before.order, i);
  }

  /** The daily announcement, rendered from the ledger before the day's accrual. */
  function Announcement(s: Snapshot, nowMs: int): (r: Report)
    requires Valid(s)
    ensures r.day == DayNumber(nowMs) && r.required == BaseQuota + r.day - 1
    ensures |r.lines| == |s.order|
    ensures forall i :: 0 <= i < |s.order| ==> r.lines[i] == s.users[s.order[i]]
  {
    var day := DayNumber(nowMs);
    Report(day, RequiredPushups(day), Lines(s.users, s.order))
  }

  /** The ledger after the scheduled report: the day's quota charged to everybody. */
  function DailyAccrual(s: Snapshot, nowMs: int): (r: Snapshot)
    ensures r.users.Keys == s.users.Keys && r.order == s.order && r.chatIds == s.chatIds
    ensures forall k :: k in s.users ==>
              && r.users[k].name == s.users[k].name
              && r.users[k].total == s.users[k].total
              && r.users[k].debt == s.users[k].debt + RequiredPushups(DayNumber(nowMs))
  {
    Accrue(s, RequiredPushups(DayNumber(nowMs)))
  }

  /** With every id covered, the loop has rendered the announcement and accrued the day. */
  lemma ReportedAll(before: Snapshot, nowMs: int, q: int, i: int, users: map<string, User>, lines: seq<User>)
    requires ReportedPrefix(before, q, i, users, lines)
    requires q == RequiredPushups(DayNumber(nowMs)) && i == |before.order|
    ensures Snapshot(users, before.order, before.chatIds) == DailyAccrual(before, nowMs)
    ensures Valid(Snapshot(users, before.order, before.chatIds))
    ensures lines == Announcement(before, nowMs).lines
  {
    assert before.order[..i] == before.order;
    PartlyChargedAll(before, q);
  }

  /** Registers a broadcast destination unless it is already known. */
  function AddChatId(ids: seq<int>, chatId: int): (r: seq<int>)
    ensures chatId in r
    ensures chatId in ids ==> r == ids
    ensures chatId !in ids ==> r == ids + [chatId]
  {
    if chatId in ids then ids else ids + [chatId]
  }

  function SaveChatIdIfMissing(s: Snapshot, chatId: int): (r: Snapshot)
    ensures r.users == s.users && r.order == s.order
    ensures chatId in r.chatIds && forall c :: c in s.chatIds ==> c in r.chatIds
    ensures forall c :: c in r.chatIds ==> c in s.chatIds || c == chatId
  {
    s.(chatIds := AddChatId(s.chatIds, chatId))
  }

  /** The earliest instant whose quota is not negative: the start of day -9. */
  const EarliestSafeMs: int := StartMs - 10 * MsPerDay

  // ---------------------------------------------------------------------------
  // Properties of the operations
  // ---------------------------------------------------------------------------

  /** Registering an id twice is registering it once: no duplicate, no reset, no rename. */
  lemma AddUserIdempotent(s: Snapshot, id: string, name: string, name': string)
    ensures AddUser(AddUser(s, id, name), id, name') == AddUser(s, id, name)
  {
  }

  lemma AddUserKeepsInvariants(s: Snapshot, id: string, name: string)
    requires Valid(s) && NonNegative(s)
    ensures Valid(AddUser(s, id, name)) && NonNegative(AddUser(s, id, name))
  {
  }

  /** With a positive count, a completion never leaves a negative debt or total behind. */
  lemma CompleteKeepsInvariants(s: Snapshot, id: string, count: int)
    requires Valid(s) && NonNegative(s) && count > 0
    ensures Valid(CompletePushups(s, id, count)) && NonNegative(CompletePushups(s, id, count))
  {
  }

  lemma ResetKeepsInvariants(s: Snapshot, id: string)
    requires Valid(s) && NonNegative(s)
    ensures Valid(ResetStats(s, id)) && NonNegative(ResetStats(s, id))
  {
  }

  /** A second reset of the same user changes nothing. */
  lemma ResetIdempotent(s: Snapshot, id: string)
    ensures ResetStats(ResetStats(s, id), id) == ResetStats(s, id)
  {
  }

  /** A distinct sequence is as long as the set of its elements. */
  lemma {:induction false} DistinctCardinality<T>(xs: seq<T>, keys: set<T>)
    requires Distinct(xs)
    requires forall k :: k in keys <==> k in xs
    ensures |keys| == |xs|
  {
    if xs != [] {
      var last := xs[|xs| - 1];
      var init := xs[..|xs| - 1];
      assert forall k :: k in init ==> k in xs;
      assert last !in init;
      forall k
        ensures k in keys - {last} <==> k in init
      {
        if k in xs && k != last {
          var i :| 0 <= i < |xs| && xs[i] == k;
          assert i < |xs| - 1 && init[i] == k;
        }
      }
      DistinctCardinality(init, keys - {last});
    }
  }

  /** One line per registered user: the visiting order is as long as the roster. */
  lemma OrderCoversRoster(s: Snapshot)
    requires Valid(s)
    ensures |s.users| == |s.order|
  {
    DistinctCardinality(s.order, s.users.Keys);
  }

  /** Every id registered appears in the visiting order exactly once. */
  lemma OrderListsEachUserOnce(s: Snapshot, id: string)
    requires Valid(s) && id in s.users
    ensures exists i :: 0 <= i < |s.order| && s.order[i] == id
    ensures forall i, j :: 0 <= i < |s.order| && 0 <= j < |s.order| && s.order[i] == id && s.order[j] == id ==> i == j
  {
  }

  /** An instant falling `t` ms into challenge day `n` gets day number `n`. */
  lemma DayNumberOfDay(n: int, t: int)
    requires 0 <= t < MsPerDay
    ensures DayNumber(StartMs + (n - 1) * MsPerDay + t) == n
  {
    DayNumberBounds(StartMs + (n - 1) * MsPerDay + t);
  }

  /** A day later, the quota is one push-up more. */
  lemma QuotaGrowsDaily(nowMs: int)
    ensures RequiredPushups(DayNumber(nowMs + MsPerDay)) == RequiredPushups(DayNumber(nowMs)) + 1
  {
    var n := DayNumber(nowMs);
    DayNumberOfDay(n + 1, nowMs - StartMs - (n - 1) * MsPerDay);
  }

  /** On the start date the quota is the base quota. */
  lemma QuotaOnFirstDay(t: int)
    requires 0 <= t < MsPerDay
    ensures RequiredPushups(DayNumber(StartMs + t)) == BaseQuota
  {
    DayNumberOfDay(1, t);
  }

  /** The quota is non-negative exactly from the start of day -9 on. */
  lemma QuotaNonNegativeIff(nowMs: int)
    ensures RequiredPushups(DayNumber(nowMs)) >= 0 <==> nowMs >= EarliestSafeMs
  {
    DayNumberBounds(nowMs);
  }

  /** Accrual from the start of day -9 on keeps every debt non-negative. */
  lemma AccrualKeepsInvariants(s: Snapshot, nowMs: int)
    requires Valid(s) && NonNegative(s) && nowMs >= EarliestSafeMs
    ensures Valid(DailyAccrual(s, nowMs)) && NonNegative(DailyAccrual(s, nowMs))
  {
    QuotaNonNegativeIff(nowMs);
  }

  /** Before that, a user without debt ends up with a negative one: the code has no guard. */
  lemma AccrualTooEarlyGoesNegative(s: Snapshot, nowMs: int, id: string)
    requires id in s.users && s.users[id].debt == 0 && nowMs < EarliestSafeMs
    ensures !NonNegative(DailyAccrual(s, nowMs))
  {
    QuotaNonNegativeIff(nowMs);
  }

  /** The announcement shows each debt as it was before the day's quota was added. */
  lemma AnnouncementPrecedesAccrual(s: Snapshot, nowMs: int, i: int)
    requires Valid(s) && 0 <= i < |s.order|
    ensures Announcement(s, nowMs).lines[i].debt + Announcement(s, nowMs).required
            == DailyAccrual(s, nowMs).users[s.order[i]].debt
    ensures Announcement(s, nowMs).lines[i].total == DailyAccrual(s, nowMs).users[s.order[i]].total
  {
  }

  /** Saving a chat id twice is saving it once. */
  lemma SaveChatIdIdempotent(s: Snapshot, chatId: int)
    ensures SaveChatIdIfMissing(SaveChatIdIfMissing(s, chatId), chatId) == SaveChatIdIfMissing(s, chatId)
  {
  }

  /** Saving a chat id keeps the list free of duplicates. */
  lemma SaveChatIdKeepsDistinct(s: Snapshot, chatId: int)
    requires Distinct(s.chatIds)
    ensures Distinct(SaveChatIdIfMissing(s, chatId).chatIds)
  {
  }
}
