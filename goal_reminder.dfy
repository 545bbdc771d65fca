/**
 * The goal reminder's check: keep the goals that are not complete, pick the one with
 * the earliest deadline, count the days left, compose the notification and apply the
 * once-per-day throttle kept in the browser's local storage.
 *
 * Times are milliseconds of local wall-clock time since 1970-01-01 00:00; a day number
 * is a time divided by the length of a day (rounding down), so a day's midnight is
 * its day number times that length.
 */
module GoalReminder {
  import opened Wrappers
  import opened JsText

  const MsPerDay: int := 1000 * 60 * 60 * 24

  /** `new Date(2100, 0, 1)`: local midnight of 2100-01-01, day 47482 after 1970-01-01. */
  const NoDeadline: int := 47482 * MsPerDay

  /** A goal document; `None` is a missing field, a NaN number or a deadline that is not a timestamp. */
  datatype Goal = Goal(
    id: string, name: string,
    current: Option<int>, total: Option<int>, deadline: Option<int>)

  datatype Permission = Default | Granted | Denied

  /** `Number(g.current) || 0` */
  function CurrentOf(g: Goal): (current: int)
    ensures g.current.Some? ==> current == g.current.value
    ensures g.current.None? ==> current == 0
  {
    if g.current.Some? then g.current.value else 0
  }

  /** `Number(g.total) || 1` */
  function TotalOf(g: Goal): (total: int)
    ensures total != 0
    ensures g.total.Some? && g.total.value != 0 ==> total == g.total.value
    ensures g.total.None? || g.total == Some(0) ==> total == 1
  {
    if g.total.Some? && g.total.value != 0 then g.total.value else 1
  }

  /** A goal is still active while its progress is below its target. */
  predicate IsActive(g: Goal) {
    CurrentOf(g) < TotalOf(g)
  }

  /** The active goals, in their original order. */
  function ActiveGoals(goals: seq<Goal>): (r: seq<Goal>)
    ensures |r| <= |goals|
    ensures forall g :: g in r <==> g in goals && IsActive(g)
    ensures forall g :: multiset(r)[g] == if IsActive(g) then multiset(goals)[g] else 0
    ensures (forall k :: 0 <= k < |goals| ==> IsActive(goals[k])) ==> r == goals
  {
    if goals == [] then []
    else
      var rest := ActiveGoals(goals[1..]);
      var r := if IsActive(goals[0]) then [goals[0]] + rest else rest;
      KeepOrDrop(goals, rest, r);
      r
  }

  /** One step of the filter: keeping or dropping the first goal in front of the filtered rest. */
  lemma KeepOrDrop(goals: seq<Goal>, rest: seq<Goal>, r: seq<Goal>)
    requires goals != [] && |rest| <= |goals| - 1
    requires forall g :: multiset(rest)[g] == if IsActive(g) then multiset(goals[1..])[g] else 0
    requires (forall k :: 1 <= k < |goals| ==> IsActive(goals[k])) ==> rest == goals[1..]
    requires r == if IsActive(goals[0]) then [goals[0]] + rest else rest
    ensures |r| <= |goals|
    ensures forall g :: multiset(r)[g] == if IsActive(g) then multiset(goals)[g] else 0
    ensures forall g :: g in r <==> g in goals && IsActive(g)
    ensures (forall k :: 0 <= k < |goals| ==> IsActive(goals[k])) ==> r == goals
  {
    assert goals == [goals[0]] + goals[1..];
    assert multiset(goals) == multiset{goals[0]} + multiset(goals[1..]);
    forall g ensures g in r <==> g in goals && IsActive(g) {
      assert g in r <==> multiset(r)[g] > 0;
      assert g in goals <==> multiset(goals)[g] > 0;
    }
    if forall k :: 0 <= k < |goals| ==> IsActive(goals[k]) {
      assert forall k :: 1 <= k < |goals| ==> IsActive(goals[k]);
    }
  }

  /** Filtering a concatenation filters each part in order: the filter keeps the input's order. */
  lemma {:induction false} ActiveGoalsAppend(a: seq<Goal>, b: seq<Goal>)
    ensures ActiveGoals(a + b) == ActiveGoals(a) + ActiveGoals(b)
  {
    if a == [] {
      assert a + b == b;
    } else {
      assert (a + b)[0] == a[0] && (a + b)[1..] == a[1..] + b;
      ActiveGoalsAppend(a[1..], b);
    }
  }

  /** A single goal is kept exactly when it is active. */
  lemma ActiveGoalsOfOne(g: Goal)
    ensures ActiveGoals([g]) == if IsActive(g) then [g] else []
  {
  }

  /** The sort key of a goal: its deadline, or 2100-01-01 when it has none. */
  function DeadlineKey(g: Goal): int {
    if g.deadline.Some? then g.deadline.value else NoDeadline
  }

  /** Each goal's deadline is no later than the next one's. */
  predicate SortedByDeadline(s: seq<Goal>) {
    forall i :: 0 <= i < |s| - 1 ==> DeadlineKey(s[i]) <= DeadlineKey(s[i + 1])
  }

  /** Inserts `g` in front of the first goal whose deadline is not earlier, keeping the order of ties. */
  function Insert(g: Goal, s: seq<Goal>): (r: seq<Goal>)
    ensures |r| == |s| + 1
    ensures multiset(r) == multiset(s) + multiset{g}
    ensures r[0] == if s == [] || DeadlineKey(g) <= DeadlineKey(s[0]) then g else s[0]
    ensures SortedByDeadline(s) ==> SortedByDeadline(r)
  {
    if s == [] || DeadlineKey(g) <= DeadlineKey(s[0]) then
      ConsSorted(g, s);
      [g] + s
    else
      assert s == [s[0]] + s[1..];
      var t := Insert(g, s[1..]);
      TailSorted(s);
      ConsSorted(s[0], t);
      [s[0]] + t
  }

  /** Putting a goal no later than the head in front of a sorted sequence keeps it sorted. */
  lemma ConsSorted(x: Goal, t: seq<Goal>)
    ensures SortedByDeadline(t) && (t == [] || DeadlineKey(x) <= DeadlineKey(t[0])) ==> SortedByDeadline([x] + t)
  {
    if SortedByDeadline(t) && (t == [] || DeadlineKey(x) <= DeadlineKey(t[0])) {
      var r := [x] + t;
      forall i | 0 <= i < |r| - 1 ensures DeadlineKey(r[i]) <= DeadlineKey(r[i + 1]) {
        if i > 0 {
          assert r[i] == t[i - 1] && r[i + 1] == t[i];
        }
      }
    }
  }

  /** Dropping the head of a sorted sequence keeps it sorted. */
  lemma TailSorted(s: seq<Goal>)
    requires s != []
    ensures SortedByDeadline(s) ==> SortedByDeadline(s[1..])
  {
    if SortedByDeadline(s) {
      forall i | 0 <= i < |s| - 2 ensures DeadlineKey(s[1..][i]) <= DeadlineKey(s[1..][i + 1]) {
        assert s[1..][i] == s[i + 1] && s[1..][i + 1] == s[i + 2];
      }
    }
  }

  /**
   * `activeGoals.sort((a, b) => dateA - dateB)`: a stable sort by deadline (the
   * language requires `Array.prototype.sort` to be stable).
   */
  function SortByDeadline(s: seq<Goal>): (r: seq<Goal>)
    ensures |r| == |s|
    ensures multiset(r) == multiset(s)
    ensures SortedByDeadline(r)
  {
    if s == [] then []
    else
      assert s == [s[0]] + s[1..];
      Insert(s[0], SortByDeadline(s[1..]))
  }

  /** In a sorted sequence the first deadline is no later than any other. */
  lemma {:induction false} SortedHeadIsEarliest(s: seq<Goal>, j: int)
    requires SortedByDeadline(s)
    requires 0 <= j < |s|
    ensures DeadlineKey(s[0]) <= DeadlineKey(s[j])
  {
    if j > 0 {
      assert SortedByDeadline(s[..j]);
      SortedHeadIsEarliest(s[..j], j - 1);
    }
  }

  /** The position of the first goal with the earliest deadline (an independent reference for the sort's head). */
  function EarliestIndex(s: seq<Goal>): (i: nat)
    requires |s| > 0
    ensures i < |s|
    ensures forall j :: 0 <= j < |s| ==> DeadlineKey(s[i]) <= DeadlineKey(s[j])
    ensures forall j :: 0 <= j < i ==> DeadlineKey(s[j]) > DeadlineKey(s[i])
  {
    if |s| == 1 then 0
    else
      var k := 1 + EarliestIndex(s[1..]);
      assert forall j :: 1 <= j < |s| ==> s[j] == s[1..][j - 1];
      if DeadlineKey(s[0]) <= DeadlineKey(s[k]) then 0 else k
  }

  /** The goal the sort puts first is the first of the goals with the earliest deadline. */
  lemma {:induction false} SortHeadIsFirstEarliest(s: seq<Goal>)
    requires |s| > 0
    ensures SortByDeadline(s)[0] == s[EarliestIndex(s)]
  {
    if |s| > 1 {
      SortHeadIsFirstEarliest(s[1..]);
    }
  }

  /** `setHours(0, 0, 0, 0)`: the local midnight that starts the day of `t`. */
  function Midnight(t: int): (m: int)
    ensures m <= t < m + MsPerDay
    ensures m % MsPerDay == 0
  {
    t - t % MsPerDay
  }

  /** `Math.ceil(a / b)` for a positive `b`. */
  function CeilDiv(a: int, b: int): (q: int)
    requires b > 0
    ensures b * (q - 1) < a <= b * q
  {
    -((-a) / b)
  }

  /**
   * Days left until the chosen goal's deadline, both dates taken at midnight; a goal
   * without a deadline is measured against the current time, so it counts as due today.
   */
  function DaysLeft(target: Goal, now: int): (d: int)
    ensures d == (if target.deadline.Some? then target.deadline.value / MsPerDay else now / MsPerDay) - now / MsPerDay
  {
    var deadlineDate := if target.deadline.Some? then target.deadline.value else now;
    MidnightIsDayStart(deadlineDate);
    MidnightIsDayStart(now);
    CeilDivDays(deadlineDate / MsPerDay - now / MsPerDay);
    CeilDiv(Midnight(deadlineDate) - Midnight(now), MsPerDay)
  }

  lemma MidnightIsDayStart(t: int)
    ensures Midnight(t) == (t / MsPerDay) * MsPerDay
  {
  }

  /** A whole number of days divides exactly. */
  lemma CeilDivDays(k: int)
    ensures CeilDiv(k * MsPerDay, MsPerDay) == k
  {
    assert -(k * MsPerDay) == (-k) * MsPerDay;
  }

  /** The urgency phrase for a number of days left. */
  function TimePhrase(d: int): (p: string)
    ensures d == 0 <==> p == "vence HOY"
    ensures d == 1 <==> p == "vence mañana"
    ensures |p| > 5 && (d < 0 <==> p[5] == 'ó')
    ensures d < 0 || d > 1 ==> |p| > 5 && p[|p| - 5..] == " días"
  {
    if d < 0 then "venció hace " + IntToString(-d) + " días"
    else if d == 0 then "vence HOY"
    else if d == 1 then "vence mañana"
    else
      var p := "vence en " + IntToString(d) + " días";
      assert p[5] == ' ';
      p
  }

  const SingleTitle: string := "\U{1F3AF} Tu Meta Actual"
  const PriorityTitle: string := "\U{26A0}\U{FE0F} Prioridad"

  function Title(count: nat): (t: string)
    ensures t == SingleTitle <==> count == 1
    ensures t == SingleTitle || t == PriorityTitle
  {
    if count == 1 then SingleTitle else PriorityTitle
  }

  /** One active goal: the raw number of days; several: the nearest goal's name with the phrase. */
  function Body(count: nat, name: string, d: int): (b: string)
    ensures count == 1 ==> |b| >= |name| + 3 && b[|b| - |name| - 3..] == "\"" + name + "\"."
    ensures count != 1 ==> |b| >= |name| + 2 && b[..|name| + 2] == "\"" + name + "\""
  {
    if count == 1 then
      QuotedAtEnd("Faltan " + IntToString(d), " días para terminar \"", name);
      "Faltan " + IntToString(d) + " días para terminar \"" + name + "\"."
    else
      QuotedAtStart(name, "\" es la más próxima (", TimePhrase(d), ").");
      "\"" + name + "\" es la más próxima (" + TimePhrase(d) + ")."
  }

  lemma QuotedAtEnd(front: string, l: string, name: string)
    requires l != [] && l[|l| - 1] == '"'
    ensures var b := front + l + name + "\".";
      |b| >= |name| + 3 && b[|b| - |name| - 3..] == "\"" + name + "\"."
  {
    var b := front + l + name + "\".";
    assert b[|b| - |name| - 3..] == l[|l| - 1..] + name + "\".";
  }

  lemma QuotedAtStart(name: string, e: string, m: string, z: string)
    requires e != [] && e[0] == '"'
    ensures var b := "\"" + name + e + m + z;
      |b| >= |name| + 2 && b[..|name| + 2] == "\"" + name + "\""
  {
    var b := "\"" + name + e + m + z;
    assert b[..|name| + 2] == "\"" + name + e[..1];
  }

  /** The local-storage key of a user's throttle. */
  function ThrottleKey(userId: string): string {
    "last_notification_check_" + userId
  }

  datatype Outcome =
    | MissingUserOrPermission
    | AlreadyNotifiedToday
    | FetchFailed
    | NoActiveGoals
    | Sent(title: string, body: string)

  /** What one check does: its outcome, and the local storage afterwards. */
  datatype CheckResult = CheckResult(outcome: Outcome, storage: map<string, string>)

  /** The throttle is in force for a run that is neither in demo mode nor a manual test. */
  predicate Throttled(isManualTest: bool, demo: bool) {
    !demo && !isManualTest
  }

  /** A run gets past the user, permission and throttle checks and queries the goals. */
  predicate ReachesFetch(
    userId: Option<string>, permission: Permission, isManualTest: bool, demo: bool,
    todayKey: string, storage: map<string, string>)
  {
    IsTruthy(userId) && permission == Granted
    && !(Throttled(isManualTest, demo)
         && ThrottleKey(userId.value) in storage && storage[ThrottleKey(userId.value)] == todayKey)
  }

  /**
   * One run of the check.  `fetched` is the goals query's result (`None` when the query
   * fails); `now` is the current time and `todayKey` its date string.
   */
  function RunCheck(
    userId: Option<string>, permission: Permission, isManualTest: bool, demo: bool,
    now: int, todayKey: string, storage: map<string, string>, fetched: Option<seq<Goal>>): (r: CheckResult)
    ensures r.outcome.MissingUserOrPermission? <==> !IsTruthy(userId) || permission != Granted
    ensures r.outcome.AlreadyNotifiedToday? <==>
      IsTruthy(userId) && permission == Granted && Throttled(isManualTest, demo)
      && ThrottleKey(userId.value) in storage && storage[ThrottleKey(userId.value)] == todayKey
    ensures r.outcome.FetchFailed? <==>
      ReachesFetch(userId, permission, isManualTest, demo, todayKey, storage) && fetched.None?
    ensures r.outcome.NoActiveGoals? <==>
      ReachesFetch(userId, permission, isManualTest, demo, todayKey, storage)
      && fetched.Some? && ActiveGoals(fetched.value) == []
    ensures r.outcome.Sent? <==>
      ReachesFetch(userId, permission, isManualTest, demo, todayKey, storage)
      && fetched.Some? && ActiveGoals(fetched.value) != []
    ensures r.outcome.Sent? && Throttled(isManualTest, demo) ==>
      r.storage == storage[ThrottleKey(userId.value) := todayKey]
    ensures !(r.outcome.Sent? && Throttled(isManualTest, demo)) ==> r.storage == storage
  {
    if !IsTruthy(userId) || permission != Granted then CheckResult(MissingUserOrPermission, storage)
    else
      var key := ThrottleKey(userId.value);
      if Throttled(isManualTest, demo) && key in storage && storage[key] == todayKey then
        CheckResult(AlreadyNotifiedToday, storage)
      else if fetched.None? then CheckResult(FetchFailed, storage)
      else
        var active := ActiveGoals(fetched.value);
        if active == [] then CheckResult(NoActiveGoals, storage)
        else
          var target := SortByDeadline(active)[0];
          var count := |active|;
          var daysLeft := DaysLeft(target, now);
          var sent := Sent(Title(count), Body(count, target.name, daysLeft));
          CheckResult(sent, if Throttled(isManualTest, demo) then storage[key := todayKey] else storage)
  }

  /** The message names the first goal with the earliest deadline among the active ones. */
  lemma SentMessage(
    userId: Option<string>, permission: Permission, isManualTest: bool, demo: bool,
    now: int, todayKey: string, storage: map<string, string>, fetched: Option<seq<Goal>>)
    requires RunCheck(userId, permission, isManualTest, demo, now, todayKey, storage, fetched).outcome.Sent?
    ensures fetched.Some?
    ensures var active := ActiveGoals(fetched.value);
      var target := active[EarliestIndex(active)];
      RunCheck(userId, permission, isManualTest, demo, now, todayKey, storage, fetched).outcome
        == Sent(Title(|active|), Body(|active|, target.name, DaysLeft(target, now)))
  {
    SortHeadIsFirstEarliest(ActiveGoals(fetched.value));
  }

  /** With the throttle in force, a second run on a day whose first run sent a notification sends nothing. */
  lemma SecondRunSameDaySendsNothing(
    userId: Option<string>, permission: Permission, now1: int, now2: int, todayKey: string,
    storage: map<string, string>, fetched1: Option<seq<Goal>>, fetched2: Option<seq<Goal>>)
    requires RunCheck(userId, permission, false, false, now1, todayKey, storage, fetched1).outcome.Sent?
    ensures var first := RunCheck(userId, permission, false, false, now1, todayKey, storage, fetched1);
      RunCheck(userId, permission, false, false, now2, todayKey, first.storage, fetched2)
        == CheckResult(AlreadyNotifiedToday, first.storage)
  {
  }

  /** The outcome of demo and manual runs does not depend on the throttle, and they never write it. */
  lemma UnthrottledIgnoresStorage(
    userId: Option<string>, permission: Permission, isManualTest: bool, demo: bool,
    now: int, todayKey: string, storage1: map<string, string>, storage2: map<string, string>,
    fetched: Option<seq<Goal>>)
    requires !Throttled(isManualTest, demo)
    ensures RunCheck(userId, permission, isManualTest, demo, now, todayKey, storage1, fetched).outcome
      == RunCheck(userId, permission, isManualTest, demo, now, todayKey, storage2, fetched).outcome
    ensures RunCheck(userId, permission, isManualTest, demo, now, todayKey, storage1, fetched).storage == storage1
  {
  }

  /** An overdue phrase shows how many days ago the deadline passed, a later one how many days remain. */
  lemma TimePhraseShowsDays(d: int)
    ensures d < 0 ==>
      |TimePhrase(d)| >= 12 && TimePhrase(d)[..12] == "venció hace " && ParseInt(TimePhrase(d)[12..]) == Num(-d)
    ensures d > 1 ==>
      |TimePhrase(d)| >= 9 && TimePhrase(d)[..9] == "vence en " && ParseInt(TimePhrase(d)[9..]) == Num(d)
  {
    var p := TimePhrase(d);
    if d < 0 {
      ShownNumberReadsBack(p, "venció hace ", -d, " días");
    } else if d > 1 {
      ShownNumberReadsBack(p, "vence en ", d, " días");
    }
  }

  /** The single-goal body shows the raw day count; the priority body embeds the time phrase. */
  lemma BodyShowsDays(count: nat, name: string, d: int)
    ensures count == 1 ==>
      |Body(count, name, d)| >= 7 && Body(count, name, d)[..7] == "Faltan " && ParseInt(Body(count, name, d)[7..]) == Num(d)
    ensures count != 1 ==>
      |name| + 22 <= |Body(count, name, d)| - 2 && Body(count, name, d)[|name| + 22..|Body(count, name, d)| - 2] == TimePhrase(d)
  {
    if count == 1 {
      NumberAfter("Faltan ", d, " días para terminar \"", name, "\".");
    } else {
      MiddleOf("\"" + name + "\" es la más próxima (", TimePhrase(d), ").");
    }
  }

  /** The number rendered after `f`, before a text that starts with a blank, reads back. */
  lemma NumberAfter(f: string, n: int, p1: string, p2: string, p3: string)
    requires p1 != [] && p1[0] == ' '
    ensures var b := f + IntToString(n) + p1 + p2 + p3;
      |b| >= |f| && b[..|f|] == f && ParseInt(b[|f|..]) == Num(n)
  {
    var b := f + IntToString(n) + p1 + p2 + p3;
    var post := p1 + p2 + p3;
    assert b == f + (IntToString(n) + post);
    assert post[0] == ' ';
    ParseIntOfRendered(n, post);
  }

  /** The middle part of a three-part concatenation. */
  lemma MiddleOf(a: string, m: string, z: string)
    ensures var b := a + m + z; |a| <= |b| - |z| && b[|a|..|b| - |z|] == m
  {
  }

  /** A number written after `pre` and before a text starting with a blank reads back. */
  lemma ShownNumberReadsBack(t: string, pre: string, n: int, post: string)
    requires t == pre + IntToString(n) + post
    requires post != [] && post[0] == ' '
    ensures |t| >= |pre| && t[..|pre|] == pre && ParseInt(t[|pre|..]) == Num(n)
  {
    assert t[..|pre|] == pre;
    assert t[|pre|..] == IntToString(n) + post;
    ParseIntOfRendered(n, post);
  }

  /** The phrase determines the number of days it was made from. */
  lemma TimePhraseInjective(d1: int, d2: int)
    requires TimePhrase(d1) == TimePhrase(d2)
    ensures d1 == d2
  {
    if d1 < 0 && d2 < 0 {
      SameFrame("venció hace ", IntToString(-d1), IntToString(-d2), " días");
      IntToStringInjective(-d1, -d2);
    } else if d1 > 1 && d2 > 1 {
      SameFrame("vence en ", IntToString(d1), IntToString(d2), " días");
      IntToStringInjective(d1, d2);
    }
  }

  /** Equal strings with the same text around them have the same middle. */
  lemma SameFrame(pre: string, x: string, y: string, post: string)
    requires pre + x + post == pre + y + post
    ensures x == y
  {
    var a := pre + x + post;
    var b := pre + y + post;
    assert |x| == |y|;
    forall k | 0 <= k < |x| ensures x[k] == y[k] {
      assert a[|pre| + k] == x[k];
      assert b[|pre| + k] == y[k];
    }
  }

  /** Two active goals due in 2 and 10 days: the priority message names the one due in 2 days. */
  lemma PriorityExample(now: int)
    requires now % MsPerDay == 0
    ensures var soon := Goal("a", "Leer 5 libros", Some(1), Some(5), Some(now + 2 * MsPerDay));
      var later := Goal("b", "Leer 1000 páginas", Some(0), Some(1000), Some(now + 10 * MsPerDay));
      RunCheck(Some("u1"), Granted, false, false, now, "Wed Oct 14 2026", map[], Some([later, soon]))
        == CheckResult(Sent(PriorityTitle, Body(2, "Leer 5 libros", 2)),
                       map["last_notification_check_u1" := "Wed Oct 14 2026"])
  {
    var soon := Goal("a", "Leer 5 libros", Some(1), Some(5), Some(now + 2 * MsPerDay));
    var later := Goal("b", "Leer 1000 páginas", Some(0), Some(1000), Some(now + 10 * MsPerDay));
    TwoGoalsFacts(now, later, soon);
    assert ThrottleKey("u1") == "last_notification_check_u1";
  }

  lemma TwoGoalsFacts(now: int, later: Goal, soon: Goal)
    requires now % MsPerDay == 0
    requires IsActive(later) && IsActive(soon)
    requires soon.deadline == Some(now + 2 * MsPerDay) && later.deadline == Some(now + 10 * MsPerDay)
    ensures ActiveGoals([later, soon]) == [later, soon]
    ensures SortByDeadline(ActiveGoals([later, soon]))[0] == soon
    ensures DaysLeft(soon, now) == 2
  {
    BothActive(later, soon);
    SoonerFirst(later, soon);
    assert (now + 2 * MsPerDay) / MsPerDay == now / MsPerDay + 2;
  }

  lemma BothActive(a: Goal, b: Goal)
    requires IsActive(a) && IsActive(b)
    ensures ActiveGoals([a, b]) == [a, b]
  {
    assert [a, b][1..] == [b];
    assert ActiveGoals([b]) == [b];
  }

  lemma SoonerFirst(later: Goal, soon: Goal)
    requires DeadlineKey(soon) < DeadlineKey(later)
    ensures SortByDeadline([later, soon])[0] == soon
  {
    assert [later, soon][1..] == [soon];
    assert SortByDeadline([soon]) == [soon];
  }

  /** One active goal due today: the single-goal message, which shows the raw count of zero days. */
  lemma SingleGoalDueTodayExample(now: int)
    ensures var g := Goal("a", "Club de lectura", None, None, Some(now));
      RunCheck(Some("u1"), Granted, true, false, now, "Wed Oct 14 2026", map[], Some([g])).outcome
        == Sent(SingleTitle, Body(1, "Club de lectura", 0))
  {
    var g := Goal("a", "Club de lectura", None, None, Some(now));
    assert ActiveGoals([g]) == [g];
    assert SortByDeadline([g]) == [g];
    assert DaysLeft(g, now) == 0;
  }

  /** The phrases for overdue, today, tomorrow and later deadlines. */
  lemma TimePhraseExamples()
    ensures TimePhrase(-3) == "venció hace 3 días"
    ensures TimePhrase(0) == "vence HOY"
    ensures TimePhrase(1) == "vence mañana"
    ensures TimePhrase(2) == "vence en 2 días"
  {
    assert IntToString(3) == "3";
    assert IntToString(2) == "2";
  }

  /** The single-goal body shows the raw number of days. */
  lemma SingleBodyExample()
    ensures Body(1, "X", 0) == "Faltan 0 días para terminar \"X\"."
  {
    assert IntToString(0) == "0";
  }

  /** The browser's local storage, a string-to-string map changed in place. */
  class LocalStorage {
    var items: map<string, string>

    constructor (initial: map<string, string>)
      ensures items == initial
    {
      items := initial;
    }

    method GetItem(key: string) returns (value: Option<string>)
      ensures value == if key in items then Some(items[key]) else None
    {
      value := if key in items then Some(items[key]) else None;
    }

    method SetItem(key: string, value: string)
      modifies this
      ensures items == old(items)[key := value]
    {
      items := items[key := value];
    }
  }

  /** The message text, built as the component builds it: the phrase first, then title and body by goal count. */
  method ComposeMessage(count: nat, name: string, daysLeft: int) returns (title: string, body: string)
    ensures title == Title(count) && body == Body(count, name, daysLeft)
  {
    title := "";
    body := "";
    var timePhrase := "";
    if daysLeft < 0 {
      timePhrase := "venció hace " + IntToString(-daysLeft) + " días";
    } else if daysLeft == 0 {
      timePhrase := "vence HOY";
    } else if daysLeft == 1 {
      timePhrase := "vence mañana";
    } else {
      timePhrase := "vence en " + IntToString(daysLeft) + " días";
    }
    assert timePhrase == TimePhrase(daysLeft);
    if count == 1 {
      title := SingleTitle;
      body := "Faltan " + IntToString(daysLeft) + " días para terminar \"" + name + "\".";
    } else {
      title := PriorityTitle;
      body := "\"" + name + "\" es la más próxima (" + timePhrase + ").";
    }
  }

  /** The check as the component runs it, against the local storage object; the dispatch is the returned outcome. */
  method RunCheckWith(
    store: LocalStorage, userId: Option<string>, permission: Permission, isManualTest: bool, demo: bool,
    now: int, todayKey: string, fetched: Option<seq<Goal>>) returns (outcome: Outcome)
    modifies store
    ensures var r := RunCheck(userId, permission, isManualTest, demo, now, todayKey, old(store.items), fetched);
      outcome == r.outcome && store.items == r.storage
  {
    if !IsTruthy(userId) || permission != Granted {
      return MissingUserOrPermission;
    }
    var key := ThrottleKey(userId.value);
    var lastNotified := store.GetItem(key);
    if !demo && !isManualTest && lastNotified == Some(todayKey) {
      return AlreadyNotifiedToday;
    }
    if fetched.None? {
      return FetchFailed;
    }
    var activeGoals := ActiveGoals(fetched.value);
    if |activeGoals| == 0 {
      return NoActiveGoals;
    }
    var targetGoal := SortByDeadline(activeGoals)[0];
    var count := |activeGoals|;
    var daysLeft := DaysLeft(targetGoal, now);

    var title, body := ComposeMessage(count, targetGoal.name, daysLeft);
    outcome := Sent(title, body);
    if !demo && !isManualTest {
      store.SetItem(key, todayKey);
    }
  }
}
