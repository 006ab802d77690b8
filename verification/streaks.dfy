/** The daily streak rule of apps/web/src/app/api/streaks/route.ts. The
    number of calendar days between the last activity and today is an input
    (the handler derives it from local dates); times are milliseconds. */
module Streaks {
  import opened Wrappers
  import opened Session

  /** A stored streak row. */
  datatype StreakRecord = StreakRecord(current: int, longest: int, lastActivityAt: nat, freezes: int)

  /** The body a GET returns. */
  datatype StreakView = StreakView(current: int, longest: int, lastActivityAt: Option<nat>, freezes: int)

  datatype GetReply = GetUnauthorized | GetOk(view: StreakView)

  /** The body a POST returns. */
  datatype PostReply = PostUnauthorized | PostOk(current: int, longest: int, increased: bool)

  /** The reply of a POST and the row it writes, if any. */
  datatype PostResult = PostResult(reply: PostReply, written: Option<StreakRecord>)

  function Max(a: int, b: int): (m: int)
    ensures m >= a && m >= b && (m == a || m == b)
  {
    if a >= b then a else b
  }

  function Status(r: PostReply): int {
    if r.PostUnauthorized? then 401 else 200
  }

  /** GET: the stored row, or zeros and no last activity when there is none. */
  function GetStreak(auth: AuthOutcome, stored: Option<StreakRecord>): (r: GetReply)
    ensures r.GetUnauthorized? <==> !auth.SignedIn?
    ensures auth.SignedIn? && stored.None? ==> r == GetOk(StreakView(0, 0, None, 0))
    ensures auth.SignedIn? && stored.Some? ==>
      r.GetOk? && r.view.current == stored.value.current && r.view.longest == stored.value.longest
      && r.view.lastActivityAt == Some(stored.value.lastActivityAt) && r.view.freezes == stored.value.freezes
  {
    if !auth.SignedIn? then GetUnauthorized
    else if stored.None? then GetOk(StreakView(0, 0, None, 0))
    else GetOk(StreakView(stored.value.current, stored.value.longest, Some(stored.value.lastActivityAt), stored.value.freezes))
  }

  /** POST: record today's activity. `daysDifference` is the number of
      calendar days from the last activity to today. */
  function PostStreak(auth: AuthOutcome, stored: Option<StreakRecord>, now: nat, daysDifference: int): (r: PostResult)
    ensures Status(r.reply) == 401 <==> !auth.SignedIn?
    ensures !auth.SignedIn? ==> r.written.None?
    ensures auth.SignedIn? && stored.None? ==>
      r.reply == PostOk(1, 1, true) && r.written == Some(StreakRecord(1, 1, now, 0))
    ensures auth.SignedIn? && stored.Some? && daysDifference == 0 ==>
      r.reply == PostOk(stored.value.current, stored.value.longest, false) && r.written.None?
    ensures auth.SignedIn? && stored.Some? && daysDifference == 1 ==>
      r.reply.PostOk? && r.reply.current == stored.value.current + 1 && r.reply.increased
    ensures auth.SignedIn? && stored.Some? && daysDifference != 0 && daysDifference != 1 ==>
      r.reply.PostOk? && r.reply.current == 1 && !r.reply.increased
    ensures auth.SignedIn? && stored.Some? && daysDifference != 0 ==>
      && r.written.Some?
      && r.written.value.current == r.reply.current
      && r.written.value.longest == r.reply.longest == Max(stored.value.longest, r.reply.current)
      && r.written.value.lastActivityAt == now
      && r.written.value.freezes == stored.value.freezes
  {
    if !auth.SignedIn? then PostResult(PostUnauthorized, None)
    else if stored.None? then PostResult(PostOk(1, 1, true), Some(StreakRecord(1, 1, now, 0)))
    else
      var prev := stored.value;
      if daysDifference == 0 then PostResult(PostOk(prev.current, prev.longest, false), None)
      else
        var current := if daysDifference == 1 then prev.current + 1 else 1;
        var longest := Max(prev.longest, current);
        PostResult(PostOk(current, longest, daysDifference == 1), Some(StreakRecord(current, longest, now, prev.freezes)))
  }

  /** A row whose longest streak is at least its current one. */
  predicate Consistent(s: StreakRecord) {
    1 <= s.current <= s.longest
  }

  /** The stored row after a POST: the written one, or the old one when nothing is written. */
  function After(stored: Option<StreakRecord>, r: PostResult): Option<StreakRecord> {
    if r.written.Some? then r.written else stored
  }

  /** A POST keeps the row consistent and never lowers the longest streak. */
  lemma PostKeepsConsistent(user: User, stored: Option<StreakRecord>, now: nat, daysDifference: int)
    requires stored.Some? ==> Consistent(stored.value)
    ensures var next := After(stored, PostStreak(SignedIn(user), stored, now, daysDifference));
      && next.Some? && Consistent(next.value)
      && (stored.Some? ==> next.value.longest >= stored.value.longest)
  {
  }

  /** The row after signed-in POSTs at the instants `times`, each on the
      calendar day after the previous activity. */
  function PostDaily(user: User, stored: Option<StreakRecord>, times: seq<nat>): (s: Option<StreakRecord>)
    decreases |times|
  {
    if times == [] then stored
    else PostDaily(user, After(stored, PostStreak(SignedIn(user), stored, times[0], 1)), times[1..])
  }

  /** Posting on n consecutive days, starting with no row, yields a streak
      of n, and the longest streak follows it. */
  lemma {:induction false} ConsecutiveDays(user: User, times: seq<nat>)
    requires times != []
    ensures var s := PostDaily(user, None, times);
      s.Some? && s.value.current == |times| && s.value.longest == |times| && s.value.lastActivityAt == times[|times| - 1]
  {
    var first := After(None, PostStreak(SignedIn(user), None, times[0], 1));
    assert first == Some(StreakRecord(1, 1, times[0], 0));
    DailyFrom(user, StreakRecord(1, 1, times[0], 0), times[1..]);
    if |times| > 1 {
      assert times[1..][|times[1..]| - 1] == times[|times| - 1];
    }
  }

  /** From a row whose longest equals its current streak, each daily post adds one to both. */
  lemma {:induction false} DailyFrom(user: User, row: StreakRecord, times: seq<nat>)
    requires row.current == row.longest
    ensures var s := PostDaily(user, Some(row), times);
      && s.Some? && s.value.current == row.current + |times| && s.value.longest == row.longest + |times|
      && s.value.lastActivityAt == (if times == [] then row.lastActivityAt else times[|times| - 1])
    decreases |times|
  {
    if times != [] {
      var next := StreakRecord(row.current + 1, row.longest + 1, times[0], row.freezes);
      assert After(Some(row), PostStreak(SignedIn(user), Some(row), times[0], 1)) == Some(next);
      DailyFrom(user, next, times[1..]);
      if |times| > 1 {
        assert times[1..][|times[1..]| - 1] == times[|times| - 1];
      }
    }
  }
}
