/** The statistics handler of apps/web/src/app/api/user/stats/route.ts: the
    XP default, the level formula and the shape of the recent attempts. The
    stored profile and the user's attempts, newest first as the store
    returns them, are inputs. */
module UserStats {
  import opened Wrappers
  import opened Session
  import opened Json
  import opened Validation

  /** A stored attempt with the question fields the query selects. */
  datatype StoredAttempt = StoredAttempt(id: string, correct: bool, timeSpent: int, createdAt: int, domain: string, difficulty: real)

  /** One entry of `recentAttempts`. */
  datatype RecentAttempt = RecentAttempt(id: string, domain: string, difficulty: real, correct: bool, timeSpent: int, createdAt: int)

  datatype Stats = Stats(totalAttempts: nat, correctAttempts: nat, xp: int, currentLevel: int, recentAttempts: seq<RecentAttempt>)

  datatype Reply = Unauthorized | ServerError | StatsOk(stats: Stats)

  const RecentLimit: nat := 10
  const XpPerLevel: nat := 100

  /** `profile?.xp || 0`. */
  function XpOf(profileXp: Option<int>): (xp: int)
    ensures profileXp.None? ==> xp == 0
    ensures profileXp.Some? ==> xp == profileXp.value
  {
    if profileXp.Some? && profileXp.value != 0 then profileXp.value else 0
  }

  /** `Math.floor(xp / 100) + 1`. */
  function Level(xp: int): (level: int)
    ensures (level - 1) * XpPerLevel <= xp < level * XpPerLevel
  {
    xp / XpPerLevel + 1
  }

  /** Levels start at one and never drop as XP grows. */
  lemma LevelShape(xp: int, more: int)
    requires xp <= more
    ensures xp >= 0 ==> Level(xp) >= 1
    ensures Level(xp) <= Level(more)
    ensures 0 <= xp < 100 ==> Level(xp) == 1
  {
  }

  function Shape(a: StoredAttempt): RecentAttempt {
    RecentAttempt(a.id, a.domain, a.difficulty, a.correct, a.timeSpent, a.createdAt)
  }

  /** The number of attempts with `correct: true`, as the second count query
      computes it: none exactly when no attempt is correct, all exactly when
      every attempt is. */
  function CountCorrect(attempts: seq<StoredAttempt>): (n: nat)
    ensures n <= |attempts|
    ensures n == 0 <==> forall i :: 0 <= i < |attempts| ==> !attempts[i].correct
    ensures n == |attempts| <==> forall i :: 0 <= i < |attempts| ==> attempts[i].correct
  {
    if attempts == [] then 0
    else
      var rest := attempts[1..];
      assert forall i :: 1 <= i < |attempts| ==> attempts[i] == rest[i - 1];
      (if attempts[0].correct then 1 else 0) + CountCorrect(rest)
  }

  /** Counting over two runs of attempts adds their counts, so each attempt
      contributes one exactly when it is correct. */
  lemma {:induction false} CountCorrectAppend(a: seq<StoredAttempt>, b: seq<StoredAttempt>)
    ensures CountCorrect(a + b) == CountCorrect(a) + CountCorrect(b)
  {
    if a == [] {
      assert a + b == b;
    } else {
      assert (a + b)[0] == a[0];
      assert (a + b)[1..] == a[1..] + b;
      CountCorrectAppend(a[1..], b);
    }
  }

  /** `recentAttempts`: the first ten of the attempts, newest first. */
  function Recent(attempts: seq<StoredAttempt>): (r: seq<RecentAttempt>)
    ensures |r| == if |attempts| < RecentLimit then |attempts| else RecentLimit
    ensures forall i :: 0 <= i < |r| ==>
      && r[i].id == attempts[i].id && r[i].correct == attempts[i].correct
      && r[i].timeSpent == attempts[i].timeSpent && r[i].domain == attempts[i].domain
      && r[i].difficulty == attempts[i].difficulty && r[i].createdAt == attempts[i].createdAt
  {
    RecentN(attempts, RecentLimit)
  }

  /** The first `limit` of the attempts (all of them when there are fewer),
      each in the reply's shape. */
  function RecentN(attempts: seq<StoredAttempt>, limit: nat): (r: seq<RecentAttempt>)
    ensures |r| == if |attempts| < limit then |attempts| else limit
    ensures forall i :: 0 <= i < |r| ==>
      && r[i].id == attempts[i].id && r[i].correct == attempts[i].correct
      && r[i].timeSpent == attempts[i].timeSpent && r[i].domain == attempts[i].domain
      && r[i].difficulty == attempts[i].difficulty && r[i].createdAt == attempts[i].createdAt
  {
    var n := if |attempts| < limit then |attempts| else limit;
    seq(n, i requires 0 <= i < n => Shape(attempts[i]))
  }

  /** Attempts ordered newest first. */
  predicate NewestFirst(attempts: seq<StoredAttempt>) {
    forall i, j :: 0 <= i < j < |attempts| ==> attempts[i].createdAt >= attempts[j].createdAt
  }

  /** The recent list keeps the store's newest-first order, and nothing in
      it is older than an attempt it leaves out. */
  lemma RecentNewestFirst(attempts: seq<StoredAttempt>)
    requires NewestFirst(attempts)
    ensures var r := Recent(attempts);
      && (forall i, j :: 0 <= i < j < |r| ==> r[i].createdAt >= r[j].createdAt)
      && (forall i, k :: 0 <= i < |r| <= k < |attempts| ==> r[i].createdAt >= attempts[k].createdAt)
  {
  }

  /** GET. */
  function GetStats(auth: AuthOutcome, profileXp: Option<int>, attempts: seq<StoredAttempt>): (r: Reply)
    ensures r.Unauthorized? <==> !auth.SignedIn?
    ensures r.StatsOk? <==> auth.SignedIn?
    ensures r.StatsOk? ==>
      && r.stats.xp == XpOf(profileXp)
      && r.stats.currentLevel == Level(r.stats.xp)
      && (profileXp.None? ==> r.stats.currentLevel == 1)
      && r.stats.totalAttempts == |attempts|
      && r.stats.correctAttempts == CountCorrect(attempts)
      && r.stats.correctAttempts <= r.stats.totalAttempts
      && |r.stats.recentAttempts| <= RecentLimit
      && r.stats.recentAttempts == Recent(attempts)
  {
    if !auth.SignedIn? then Unauthorized
    else
      var xp := XpOf(profileXp);
      StatsOk(Stats(|attempts|, CountCorrect(attempts), xp, Level(xp), Recent(attempts)))
  }

  /** The handler as written: `createClient()` is called without `await`,
      so with an asynchronous factory every request reaches the catch and
      is answered 500, even one without a session. With a synchronous one it
      behaves as `GetStats`, which models the awaited call. */
  function GetStatsUnawaited(factory: ClientFactory, auth: AuthOutcome, profileXp: Option<int>, attempts: seq<StoredAttempt>): (r: Reply)
    ensures factory.ReturnsPromise? ==> r.ServerError?
    ensures factory.ReturnsClient? ==> r == GetStats(auth, profileXp, attempts)
  {
    if factory.ReturnsPromise? then ServerError else GetStats(auth, profileXp, attempts)
  }

  /** The reply the handler's tests describe: the `recent` query checked
      first (400 when invalid), an `accuracy` that is `null` without
      attempts, and as many recent attempts as asked for. */
  datatype QueryReply =
    | QueryUnauthorized
    | BadQuery(issues: seq<Issue>)
    | QueryStatsOk(stats: Stats, accuracy: Option<real>)

  /** The statistics handler with its query read: `recent` parsed by the
      statistics query schema (a whole number from 1 to 50, ten when absent),
      the recent list cut to that many, and the share of correct attempts. */
  function GetStatsWithQuery(auth: AuthOutcome, recent: Coerced, profileXp: Option<int>, attempts: seq<StoredAttempt>): (r: QueryReply)
    ensures r.QueryUnauthorized? <==> !auth.SignedIn?
    ensures r.BadQuery? <==> auth.SignedIn? && ParseStatsQuery(recent).Failure?
    ensures r.BadQuery? ==> r.issues != []
    ensures r.QueryStatsOk? ==>
      && var n := ParseStatsQuery(recent).value;
      && r.stats.recentAttempts == RecentN(attempts, n)
      && |r.stats.recentAttempts| <= n
      && (recent.Absent? ==> r.stats.recentAttempts == Recent(attempts))
      && r.stats.totalAttempts == |attempts|
      && r.stats.correctAttempts == CountCorrect(attempts)
      && r.stats.xp == XpOf(profileXp) && r.stats.currentLevel == Level(r.stats.xp)
      && (r.accuracy.None? <==> attempts == [])
      && r.accuracy == Accuracy(CountCorrect(attempts), |attempts|)
  {
    if !auth.SignedIn? then QueryUnauthorized
    else match ParseStatsQuery(recent)
      case Failure(e) => BadQuery(e)
      case Success(n) =>
        var xp := XpOf(profileXp);
        var total := |attempts|;
        var correct := CountCorrect(attempts);
        QueryStatsOk(Stats(total, correct, xp, Level(xp), RecentN(attempts, n)), Accuracy(correct, total))
  }

  /** `total ? correct / total : null`. */
  function Accuracy(correct: nat, total: nat): (a: Option<real>)
    requires correct <= total
    ensures a.None? <==> total == 0
    ensures a.Some? ==> 0.0 <= a.value <= 1.0 && a.value * total as real == correct as real
  {
    if total == 0 then None else Some(correct as real / total as real)
  }

  /** The handler as written reads no query: it answers `?recent=0` with the
      statistics where the schema rejects it, and always lists up to ten
      recent attempts where `?recent=5` asks for five. */
  lemma StatsQueryIgnored(user: User, profileXp: Option<int>, attempts: seq<StoredAttempt>)
    requires |attempts| > 5
    ensures GetStats(SignedIn(user), profileXp, attempts).StatsOk?
    ensures GetStatsWithQuery(SignedIn(user), Finite(0.0), profileXp, attempts).BadQuery?
    ensures |GetStats(SignedIn(user), profileXp, attempts).stats.recentAttempts| > 5
    ensures |GetStatsWithQuery(SignedIn(user), Finite(5.0), profileXp, attempts).stats.recentAttempts| == 5
  {
    assert IsInteger(5.0);
  }
}
