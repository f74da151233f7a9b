/**
 `aic esv restart --wait`: startup reads until a restart has been seen to finish, then fresh pending
 reads, all of it bounded by one deadline.  What the reads would answer, how long each takes and how
 late the loop wakes are an arbitrary endless sequence of turns; instants are seconds on one clock.
 */
module RestartWait {
  import opened Common

  const POLL_INTERVAL := 10
  const POLL_READ_FAILURES := 6

  datatype Status = Restarting | Ready
  type Pending = seq<string>
  type Error = string

  /**
   The n-th turn of the loop: what either read would answer, after how long, whether a deadline
   that falls inside it is noticed before the answer, and how late the loop comes round again.
   */
  datatype Turn = Turn(
    startup: Result<Status, Error>, pending: Result<Pending, Error>, took: nat, timerFirst: bool, lag: nat)

  datatype Outcome = Answered(status: Status) | Listed(list: Pending) | Failed(error: Error) | Silent

  datatype Read = Read(began: int, ended: int, outcome: Outcome)

  datatype WaitEnd =
    | Finished(list: Pending)
    | TimedOut(restarted: bool)
    | Unreadable(error: Error, restarted: bool)

  class Watch {
    var seenRestarting: bool

    constructor ()
      ensures !seenRestarting
    {
      seenRestarting := false;
    }

    method Finished(status: Status) returns (done: bool)
      modifies this
      ensures seenRestarting == (old(seenRestarting) || status == Restarting)
      ensures done == (old(seenRestarting) && status == Ready)
    {
      match status
      case Restarting =>
        seenRestarting := true;
        done := false;
      case Ready =>
        done := seenRestarting;
    }
  }

  /****** what a list of reads says ******/

  predicate Says(r: Read, status: Status, deadline: int) {
    r.outcome == Answered(status) && r.ended <= deadline
  }

  predicate RestartingSeen(log: seq<Read>, deadline: int) {
    exists i | 0 <= i < |log| :: Says(log[i], Restarting, deadline)
  }

  /** A restart was seen to finish: a read said restarting and a later one ready, both in time. */
  predicate RestartSeen(log: seq<Read>, deadline: int) {
    exists i, j | 0 <= i < j < |log| :: Says(log[i], Restarting, deadline) && Says(log[j], Ready, deadline)
  }

  /** How many reads in a row have failed, up to the last one. */
  function Failures(log: seq<Read>): nat {
    if log == [] || !log[|log| - 1].outcome.Failed? then 0 else 1 + Failures(log[..|log| - 1])
  }

  /** The last read alone ends the wait. */
  predicate Final(log: seq<Read>, deadline: int) {
    log != [] &&
    var last := log[|log| - 1];
    || last.outcome.Listed?
    || last.outcome.Silent?
    || (last.outcome.Answered? && last.ended > deadline)
    || Failures(log) >= POLL_READ_FAILURES
  }

  /****** the environment ******/

  /** The read that a turn makes when it begins at `began`. */
  function ReadAt(turn: Turn, began: int, afterRestart: bool, deadline: int): Read {
    var ended := began + turn.took;
    if ended >= deadline && turn.timerFirst then Read(began, Max(began, deadline), Silent)
    else
      Read(began, ended,
           if afterRestart then
             match turn.pending { case Ok(list) => Listed(list) case Err(error) => Failed(error) }
           else
             match turn.startup { case Ok(status) => Answered(status) case Err(error) => Failed(error) })
  }

  /** The instant after a pause of one interval cut short at the deadline. */
  function Woken(now: int, deadline: int, lag: nat): int {
    Max(now, Min(now + POLL_INTERVAL, deadline)) + lag
  }

  /** When the loop is at its head with these reads behind it; only a finished restart skips the pause. */
  function Clock(turns: nat -> Turn, start: int, deadline: int, log: seq<Read>): int {
    if log == [] then start
    else
      var last, lag := log[|log| - 1], turns(|log| - 1).lag;
      if last.outcome.Answered? && RestartSeen(log, deadline) then last.ended + lag
      else Woken(last.ended, deadline, lag)
  }

  /** Every read was begun before the deadline, by a wait nothing had ended, and is what its turn makes. */
  predicate Trace(turns: nat -> Turn, start: int, deadline: int, log: seq<Read>)
    decreases |log|
  {
    log == [] ||
    var n := |log| - 1;
    Trace(turns, start, deadline, log[..n]) && TraceAt(turns, start, deadline, log[..n], log[n])
  }

  predicate TraceAt(turns: nat -> Turn, start: int, deadline: int, before: seq<Read>, r: Read) {
    var began := Clock(turns, start, deadline, before);
    && began < deadline
    && !Final(before, deadline)
    && r == ReadAt(turns(|before|), began, RestartSeen(before, deadline), deadline)
  }

  /** The result the reads justify. */
  predicate Ends(turns: nat -> Turn, start: int, deadline: int, log: seq<Read>, end: WaitEnd) {
    match end
    case Finished(list) =>
      log != [] && log[|log| - 1].outcome == Listed(list) && log[|log| - 1].ended <= deadline
    case Unreadable(error, restarted) =>
      && Failures(log) == POLL_READ_FAILURES && log[|log| - 1].outcome == Failed(error)
      && restarted == RestartSeen(log, deadline)
    case TimedOut(restarted) =>
      && restarted == RestartSeen(log, deadline)
      && if Final(log, deadline) then
           log[|log| - 1].outcome.Silent? ||
           (!log[|log| - 1].outcome.Failed? && log[|log| - 1].ended > deadline)
         else Clock(turns, start, deadline, log) >= deadline
  }

  lemma SeenGrows(log: seq<Read>, r: Read, deadline: int)
    ensures RestartingSeen(log + [r], deadline) == (RestartingSeen(log, deadline) || Says(r, Restarting, deadline))
    ensures RestartSeen(log + [r], deadline) ==
            (RestartSeen(log, deadline) || (RestartingSeen(log, deadline) && Says(r, Ready, deadline)))
    ensures Failures(log + [r]) == if r.outcome.Failed? then 1 + Failures(log) else 0
  {
    var all := log + [r];
    assert all[..|log|] == log && all[|log|] == r;
    assert forall i | 0 <= i < |log| :: all[i] == log[i];
    if RestartingSeen(log, deadline) {
      var i :| 0 <= i < |log| && Says(log[i], Restarting, deadline);
      assert Says(all[i], Restarting, deadline);
    }
    if RestartSeen(log, deadline) {
      var i, j :| 0 <= i < j < |log| && Says(log[i], Restarting, deadline) && Says(log[j], Ready, deadline);
      assert Says(all[i], Restarting, deadline) && Says(all[j], Ready, deadline);
    }
  }

  /** What the loop knows at its head. */
  predicate Head(turns: nat -> Turn, start: int, deadline: int, log: seq<Read>, now: int,
                       seenRestarting: bool, restarted: bool, failures: nat)
  {
    && Trace(turns, start, deadline, log) && !Final(log, deadline)
    && now == Clock(turns, start, deadline, log)
    && seenRestarting == RestartingSeen(log, deadline)
    && restarted == RestartSeen(log, deadline)
    && failures == Failures(log)
  }

  /** A read that ends the wait. */
  lemma StepEnds(turns: nat -> Turn, start: int, deadline: int, log: seq<Read>, now: int,
                 seenRestarting: bool, restarted: bool, failures: nat, r: Read)
    requires Head(turns, start, deadline, log, now, seenRestarting, restarted, failures) && now < deadline
    requires r == ReadAt(turns(|log|), now, restarted, deadline)
    ensures Trace(turns, start, deadline, log + [r])
    ensures r.outcome.Silent? || (!r.outcome.Failed? && r.ended > deadline) ==>
              Ends(turns, start, deadline, log + [r], TimedOut(restarted))
    ensures r.outcome.Listed? && r.ended <= deadline ==>
              Ends(turns, start, deadline, log + [r], Finished(r.outcome.list))
    ensures r.outcome.Failed? && failures == POLL_READ_FAILURES - 1 ==>
              Ends(turns, start, deadline, log + [r], Unreadable(r.outcome.error, restarted))
  {
    SeenGrows(log, r, deadline);
    var all := log + [r];
    assert all[..|all| - 1] == log && all[|all| - 1] == r;
  }

  /** A read the wait goes on after. */
  lemma StepGoesOn(turns: nat -> Turn, start: int, deadline: int, log: seq<Read>, now: int,
                   seenRestarting: bool, restarted: bool, failures: nat, r: Read)
    requires Head(turns, start, deadline, log, now, seenRestarting, restarted, failures) && now < deadline
    requires r == ReadAt(turns(|log|), now, restarted, deadline)
    ensures r.outcome.Failed? && failures < POLL_READ_FAILURES - 1 ==>
              Head(turns, start, deadline, log + [r], Woken(r.ended, deadline, turns(|log|).lag),
                   seenRestarting, restarted, failures + 1)
    ensures r.outcome.Answered? && r.ended <= deadline ==>
              var done := seenRestarting && r.outcome.status == Ready;
              Head(turns, start, deadline, log + [r],
                   if done then r.ended + turns(|log|).lag else Woken(r.ended, deadline, turns(|log|).lag),
                   seenRestarting || r.outcome.status == Restarting, done, 0)
  {
    SeenGrows(log, r, deadline);
    var all := log + [r];
    assert all[..|all| - 1] == log && all[|all| - 1] == r;
    assert Trace(turns, start, deadline, all);
    assert Clock(turns, start, deadline, all) ==
           if r.outcome.Answered? && RestartSeen(all, deadline) then r.ended + turns(|log|).lag
           else Woken(r.ended, deadline, turns(|log|).lag);
  }

  /** The wait itself, with the reads it made. */
  method Wait(turns: nat -> Turn, start: int, deadline: int) returns (end: WaitEnd, log: seq<Read>)
    ensures Trace(turns, start, deadline, log)
    ensures Ends(turns, start, deadline, log, end)
  {
    var watch := new Watch();
    var restarted, failures, now, n := false, 0, start, 0;
    log := [];
    while true
      invariant n == |log| && failures < POLL_READ_FAILURES && fresh(watch)
      invariant Head(turns, start, deadline, log, now, watch.seenRestarting, restarted, failures)
      decreases if restarted then 0 else 1, deadline - now
    {
      if now >= deadline {
        return TimedOut(restarted), log;
      }
      var turn := turns(n);
      var r := ReadAt(turn, now, restarted, deadline);
      StepEnds(turns, start, deadline, log, now, watch.seenRestarting, restarted, failures, r);
      StepGoesOn(turns, start, deadline, log, now, watch.seenRestarting, restarted, failures, r);
      n, log := n + 1, log + [r];
      if now + turn.took >= deadline && turn.timerFirst {
        return TimedOut(restarted), log;
      }
      now := now + turn.took;
      var error: Error;
      if restarted {
        match turn.pending {
          case Ok(list) =>
            if now > deadline {
              return TimedOut(restarted), log;
            }
            return Finished(list), log;
          case Err(e) =>
            error := e;
        }
      } else {
        match turn.startup {
          case Ok(status) =>
            if now > deadline {
              return TimedOut(restarted), log;
            }
            failures := 0;
            restarted := watch.Finished(status);
            now := if restarted then now + turn.lag else Woken(now, deadline, turn.lag);
            continue;
          case Err(e) =>
            error := e;
        }
      }
      failures := failures + 1;
      if failures >= POLL_READ_FAILURES {
        return Unreadable(error, restarted), log;
      }
      now := Woken(now, deadline, turn.lag);
    }
  }

  /****** what the contract means ******/

  /** The reads and the result are settled by the environment: the contract admits one wait. */
  lemma WaitIsDetermined(turns: nat -> Turn, start: int, deadline: int, a: seq<Read>, x: WaitEnd, b: seq<Read>, y: WaitEnd)
    requires Trace(turns, start, deadline, a) && Ends(turns, start, deadline, a, x)
    requires Trace(turns, start, deadline, b) && Ends(turns, start, deadline, b, y)
    ensures a == b && x == y
  {
    if |a| <= |b| {
      NotLonger(turns, start, deadline, a, x, b);
    } else {
      NotLonger(turns, start, deadline, b, y, a);
    }
  }

  lemma NotLonger(turns: nat -> Turn, start: int, deadline: int, a: seq<Read>, x: WaitEnd, b: seq<Read>)
    requires Trace(turns, start, deadline, a) && Ends(turns, start, deadline, a, x)
    requires Trace(turns, start, deadline, b) && |a| <= |b|
    ensures a == b
  {
    TracePrefix(turns, start, deadline, b, |a|);
    SameReads(turns, start, deadline, a, b[..|a|]);
    assert b[..|b|] == b;
  }

  lemma {:induction false} TracePrefix(turns: nat -> Turn, start: int, deadline: int, log: seq<Read>, k: nat)
    requires Trace(turns, start, deadline, log) && k <= |log|
    ensures Trace(turns, start, deadline, log[..k])
    ensures k < |log| ==> TraceAt(turns, start, deadline, log[..k], log[k])
    decreases |log|
  {
    if k == |log| {
      assert log[..k] == log;
    } else {
      var n := |log| - 1;
      TracePrefix(turns, start, deadline, log[..n], k);
      assert log[..n][..k] == log[..k];
    }
  }

  lemma {:induction false} SameReads(turns: nat -> Turn, start: int, deadline: int, a: seq<Read>, b: seq<Read>)
    requires Trace(turns, start, deadline, a) && Trace(turns, start, deadline, b) && |a| == |b|
    ensures a == b
    decreases |a|
  {
    if a != [] {
      var n := |a| - 1;
      SameReads(turns, start, deadline, a[..n], b[..n]);
      assert a == a[..n] + [a[n]] && b == b[..n] + [b[n]];
    }
  }

  /** No read begins before an earlier one has ended. */
  lemma {:induction false} ReadsFollowOneAnother(turns: nat -> Turn, start: int, deadline: int, log: seq<Read>, j: nat, k: nat)
    requires Trace(turns, start, deadline, log) && j < k < |log|
    ensures log[j].ended <= log[k].began
    decreases k
  {
    TracePrefix(turns, start, deadline, log, k);
    assert log[k].began == Clock(turns, start, deadline, log[..k]) >= log[k - 1].ended;
    if j < k - 1 {
      TracePrefix(turns, start, deadline, log, k - 1);
      ReadsFollowOneAnother(turns, start, deadline, log, j, k - 1);
      assert log[k - 1].began <= log[k - 1].ended;
    }
  }

  /**
   A finished wait saw a restart: a read said restarting, a later one ready, and the list it returns
   is the answer to a read begun after that; all three answered by the deadline.
   */
  lemma FinishedMeansRestarted(turns: nat -> Turn, start: int, deadline: int, log: seq<Read>, list: Pending)
    returns (i: nat, j: nat, k: nat)
    requires Trace(turns, start, deadline, log) && Ends(turns, start, deadline, log, Finished(list))
    ensures i < j < k == |log| - 1
    ensures Says(log[i], Restarting, deadline) && Says(log[j], Ready, deadline)
    ensures log[i].ended <= log[j].began && log[j].ended <= log[k].began
    ensures log[k].outcome == Listed(list) && log[k].ended <= deadline
  {
    k := |log| - 1;
    assert TraceAt(turns, start, deadline, log[..k], log[k]);
    assert RestartSeen(log[..k], deadline);
    i, j := SeenPair(log, k, deadline);
    ReadsFollowOneAnother(turns, start, deadline, log, i, j);
    ReadsFollowOneAnother(turns, start, deadline, log, j, k);
  }

  lemma SeenPair(log: seq<Read>, k: nat, deadline: int) returns (i: nat, j: nat)
    requires k <= |log| && RestartSeen(log[..k], deadline)
    ensures i < j < k && Says(log[i], Restarting, deadline) && Says(log[j], Ready, deadline)
  {
    i, j :| 0 <= i < j < k && Says(log[..k][i], Restarting, deadline) && Says(log[..k][j], Ready, deadline);
  }

  /** A restart seen to finish by some point of the log is seen by its end. */
  lemma SeenStays(log: seq<Read>, k: nat, deadline: int)
    requires k <= |log| && RestartSeen(log[..k], deadline)
    ensures RestartSeen(log, deadline)
  {
    var i, j := SeenPair(log, k, deadline);
  }

  /** Every read but the one after a finished restart waits out its interval. */
  lemma {:induction false} ClockGrows(turns: nat -> Turn, start: int, deadline: int, log: seq<Read>)
    requires Trace(turns, start, deadline, log) && start < deadline
    ensures Clock(turns, start, deadline, log) >=
            Min(deadline, start + POLL_INTERVAL * (|log| - if RestartSeen(log, deadline) then 1 else 0))
    decreases |log|
  {
    if log != [] {
      var n := |log| - 1;
      var before := log[..n];
      ClockGrows(turns, start, deadline, before);
      if RestartSeen(before, deadline) { SeenStays(log, n, deadline); }
    }
  }

  /** At most limit / POLL_INTERVAL + 2 reads are made. */
  lemma ReadsAreBounded(turns: nat -> Turn, start: int, deadline: int, log: seq<Read>)
    requires Trace(turns, start, deadline, log)
    ensures |log| <= if start < deadline then (deadline - start) / POLL_INTERVAL + 2 else 0
  {
    if log != [] {
      var n := |log| - 1;
      TracePrefix(turns, start, deadline, log, 0);
      ClockGrows(turns, start, deadline, log[..n]);
    }
  }

  /** Unreadable exactly on six failed reads in a row, the last of them reported. */
  lemma UnreadableMeansSixFailures(turns: nat -> Turn, start: int, deadline: int, log: seq<Read>, end: WaitEnd)
    requires Trace(turns, start, deadline, log) && Ends(turns, start, deadline, log, end)
    ensures end.Unreadable? <==>
            |log| >= POLL_READ_FAILURES && forall k | |log| - POLL_READ_FAILURES <= k < |log| :: log[k].outcome.Failed?
  {
    FailuresCount(log, POLL_READ_FAILURES);
    if log != [] {
      var before := log[..|log| - 1];
      assert TraceAt(turns, start, deadline, before, log[|log| - 1]);
      assert Failures(log) <= 1 + Failures(before);
    }
  }

  lemma {:induction false} FailuresCount(log: seq<Read>, n: nat)
    ensures Failures(log) >= n <==> |log| >= n && forall k | |log| - n <= k < |log| :: log[k].outcome.Failed?
    decreases n
  {
    if n > 0 && log != [] {
      var before := log[..|log| - 1];
      FailuresCount(before, n - 1);
      assert forall k | 0 <= k < |before| :: before[k] == log[k];
    }
  }

  /****** how long it pauses, and when it finishes ******/

  /**
   The first read begins at the start and every other one when the one before has ended and one
   interval has passed, or at once after the read that saw the restart finish; nothing waits longer.
   */
  lemma PausesAreExact(turns: nat -> Turn, start: int, deadline: int, log: seq<Read>, n: nat)
    requires Trace(turns, start, deadline, log) && n < |log|
    ensures n == 0 ==> log[n].began == start
    ensures n > 0 ==>
              var finished := RestartSeen(log[..n], deadline) && !RestartSeen(log[..n - 1], deadline);
              log[n].began == log[n - 1].ended + (if finished then 0 else POLL_INTERVAL) + turns(n - 1).lag
  {
    TracePrefix(turns, start, deadline, log, n);
    if n > 0 {
      TracePrefix(turns, start, deadline, log, n - 1);
      assert log[..n] == log[..n - 1] + [log[n - 1]];
      SeenGrows(log[..n - 1], log[n - 1], deadline);
    }
  }

  /** A wait times out only on a read the deadline fell in, or because the next one would begin too late. */
  lemma TimesOutAtTheDeadline(turns: nat -> Turn, start: int, deadline: int, log: seq<Read>, restarted: bool)
    requires Trace(turns, start, deadline, log) && Ends(turns, start, deadline, log, TimedOut(restarted))
    ensures restarted == RestartSeen(log, deadline)
    ensures if log == [] then start >= deadline
            else
              var last := log[|log| - 1];
              || last.outcome.Silent?
              || (!last.outcome.Failed? && last.ended > deadline)
              || last.ended + POLL_INTERVAL + turns(|log| - 1).lag >= deadline
  {
  }

  /** Turn k is the first by which the startup reads have said restarting and later ready. */
  ghost predicate Restarts(turns: nat -> Turn, k: nat) {
    && turns(k).startup == Ok(Ready)
    && (exists i: nat :: i < k && turns(i).startup == Ok(Restarting))
    && forall i: nat, j: nat | i < j < k :: turns(i).startup == Ok(Restarting) ==> turns(j).startup != Ok(Ready)
  }

  predicate SixFail(turns: nat -> Turn, n: nat) {
    forall j: nat | n <= j < n + POLL_READ_FAILURES :: turns(j).startup.Err?
  }

  /** No six startup reads in a row fail up to turn k. */
  ghost predicate Bearable(turns: nat -> Turn, k: nat) {
    forall n: nat | n + POLL_READ_FAILURES <= k :: !SixFail(turns, n)
  }

  /** After turn k some reads of the pending list fail, fewer than six, and the next is answered. */
  ghost predicate Lists(turns: nat -> Turn, k: nat, m: nat, list: Pending) {
    && m < POLL_READ_FAILURES
    && (forall n: nat | k < n <= k + m :: turns(n).pending.Err?)
    && turns(k + 1 + m).pending == Ok(list)
  }

  /** When the n-th turn begins: the turns before it with their lags, and an interval after each but the k-th. */
  function Arrives(turns: nat -> Turn, start: int, k: nat, n: nat): int {
    if n == 0 then start
    else
      var turn := turns(n - 1);
      Arrives(turns, start, k, n - 1) + turn.took + turn.lag + if n - 1 == k then 0 else POLL_INTERVAL
  }

  /** The n-th turn begins before the deadline and its answer is not lost to it. */
  predicate InTime(turns: nat -> Turn, start: int, deadline: int, k: nat, n: nat) {
    var began, turn := Arrives(turns, start, k, n), turns(n);
    began < deadline && began + turn.took <= deadline && (began + turn.took == deadline ==> !turn.timerFirst)
  }

  ghost predicate Succeeds(turns: nat -> Turn, start: int, deadline: int, list: Pending, k: nat, m: nat) {
    && Restarts(turns, k) && Bearable(turns, k) && Lists(turns, k, m, list)
    && InTime(turns, start, deadline, k, k + 1 + m)
  }

  lemma {:induction false} ArrivesGrows(turns: nat -> Turn, start: int, k: nat, n: nat, p: nat)
    requires n <= p
    ensures Arrives(turns, start, k, n) <= Arrives(turns, start, k, p)
    ensures n < p ==> Arrives(turns, start, k, n) + turns(n).took <= Arrives(turns, start, k, p)
    decreases p
  {
    if n < p {
      ArrivesGrows(turns, start, k, n, p - 1);
    }
  }

  /** What a read that was answered says: the turn's startup status, or its pending list. */
  predicate Heard(turn: Turn, afterRestart: bool, r: Read) {
    if afterRestart then
      match turn.pending { case Ok(list) => r.outcome == Listed(list) case Err(error) => r.outcome == Failed(error) }
    else
      match turn.startup { case Ok(status) => r.outcome == Answered(status) case Err(error) => r.outcome == Failed(error) }
  }

  ghost predicate HeardAll(turns: nat -> Turn, deadline: int, k: nat, log: seq<Read>) {
    forall j: nat | j < |log| ::
      Heard(turns(j), j > k, log[j]) && !log[j].outcome.Listed? && (log[j].outcome.Answered? ==> log[j].ended <= deadline)
  }

  /** A log nothing has ended is what the turns say it is, on the turns' own clock. */
  ghost predicate OnCourse(turns: nat -> Turn, start: int, deadline: int, k: nat, log: seq<Read>) {
    && (RestartSeen(log, deadline) <==> |log| > k)
    && HeardAll(turns, deadline, k, log)
    && var now, due := Clock(turns, start, deadline, log), Arrives(turns, start, k, |log|);
       now == due || (now >= deadline && due >= deadline)
  }

  lemma {:induction false} StaysOnCourse(turns: nat -> Turn, start: int, deadline: int, k: nat, log: seq<Read>)
    requires Trace(turns, start, deadline, log) && !Final(log, deadline) && Restarts(turns, k)
    ensures OnCourse(turns, start, deadline, k, log)
    decreases |log|
  {
    if log != [] {
      StaysOnCourse(turns, start, deadline, k, log[..|log| - 1]);
      CourseStep(turns, start, deadline, k, log);
    }
  }

  lemma CourseStep(turns: nat -> Turn, start: int, deadline: int, k: nat, log: seq<Read>)
    requires log != [] && Trace(turns, start, deadline, log) && !Final(log, deadline) && Restarts(turns, k)
    requires OnCourse(turns, start, deadline, k, log[..|log| - 1])
    ensures OnCourse(turns, start, deadline, k, log)
  {
    var n := |log| - 1;
    NextIsHeard(turns, start, deadline, k, log);
    assert HeardAll(turns, deadline, k, log) by {
      HeardGrows(turns, deadline, k, log[..n], log[n]);
      assert log == log[..n] + [log[n]];
    }
    SeenFollowsTurns(turns, deadline, k, log);
    ClockFollows(turns, start, deadline, k, log);
  }

  lemma NextIsHeard(turns: nat -> Turn, start: int, deadline: int, k: nat, log: seq<Read>)
    requires log != [] && Trace(turns, start, deadline, log) && !Final(log, deadline)
    requires RestartSeen(log[..|log| - 1], deadline) <==> |log| - 1 > k
    ensures var r := log[|log| - 1];
            && Heard(turns(|log| - 1), |log| - 1 > k, r) && !r.outcome.Listed?
            && (r.outcome.Answered? ==> r.ended <= deadline)
  {
    assert TraceAt(turns, start, deadline, log[..|log| - 1], log[|log| - 1]);
  }

  lemma HeardGrows(turns: nat -> Turn, deadline: int, k: nat, log: seq<Read>, r: Read)
    requires HeardAll(turns, deadline, k, log)
    requires Heard(turns(|log|), |log| > k, r) && !r.outcome.Listed? && (r.outcome.Answered? ==> r.ended <= deadline)
    ensures HeardAll(turns, deadline, k, log + [r])
  {
  }

  lemma SeenFollowsTurns(turns: nat -> Turn, deadline: int, k: nat, log: seq<Read>)
    requires Restarts(turns, k)
    requires HeardAll(turns, deadline, k, log)
    ensures RestartSeen(log, deadline) <==> |log| > k
  {
    if |log| > k {
      var i: nat :| i < k && turns(i).startup == Ok(Restarting);
      assert Says(log[i], Restarting, deadline) && Says(log[k], Ready, deadline);
    }
  }

  lemma ClockFollows(turns: nat -> Turn, start: int, deadline: int, k: nat, log: seq<Read>)
    requires log != [] && Trace(turns, start, deadline, log) && !Final(log, deadline)
    requires OnCourse(turns, start, deadline, k, log[..|log| - 1])
    requires RestartSeen(log, deadline) <==> |log| > k
    requires Heard(turns(|log| - 1), |log| - 1 > k, log[|log| - 1])
    ensures var now, due := Clock(turns, start, deadline, log), Arrives(turns, start, k, |log|);
            now == due || (now >= deadline && due >= deadline)
  {
    var n := |log| - 1;
    assert log[n].began == Arrives(turns, start, k, n);
    assert log[n].ended == log[n].began + turns(n).took;
  }

  /** The last read of a whole log, on the turns' own clock. */
  lemma LastRead(turns: nat -> Turn, start: int, deadline: int, k: nat, log: seq<Read>)
    requires log != [] && Trace(turns, start, deadline, log) && Restarts(turns, k)
    ensures var n := |log| - 1;
            && OnCourse(turns, start, deadline, k, log[..n])
            && Arrives(turns, start, k, n) < deadline
            && log[n] == ReadAt(turns(n), Arrives(turns, start, k, n), n > k, deadline)
  {
    StaysOnCourse(turns, start, deadline, k, log[..|log| - 1]);
  }

  /** The wait returns a list exactly when a restart is seen to finish and the list read, all in time. */
  lemma FinishesExactly(turns: nat -> Turn, start: int, deadline: int, log: seq<Read>, end: WaitEnd, list: Pending)
    requires Trace(turns, start, deadline, log) && Ends(turns, start, deadline, log, end)
    ensures end == Finished(list) <==> exists k: nat, m: nat :: Succeeds(turns, start, deadline, list, k, m)
  {
    if k: nat, m: nat :| Succeeds(turns, start, deadline, list, k, m) {
      SuccessFinishes(turns, start, deadline, log, end, list, k, m);
    }
    if end == Finished(list) {
      var k, m := FinishSucceeds(turns, start, deadline, log, list);
    }
  }

  lemma SuccessFinishes(turns: nat -> Turn, start: int, deadline: int, log: seq<Read>, end: WaitEnd, list: Pending, k: nat, m: nat)
    requires Trace(turns, start, deadline, log) && Ends(turns, start, deadline, log, end)
    requires Succeeds(turns, start, deadline, list, k, m)
    ensures end == Finished(list)
  {
    SomethingEnds(turns, start, deadline, log, end, list, k, m);
    LastRead(turns, start, deadline, k, log);
    var n := |log| - 1;
    assert log == log[..n] + [log[n]];
    LastIsTheList(turns, start, deadline, log[..n], log[n], list, k, m);
  }

  lemma SomethingEnds(turns: nat -> Turn, start: int, deadline: int, log: seq<Read>, end: WaitEnd, list: Pending, k: nat, m: nat)
    requires Trace(turns, start, deadline, log) && Ends(turns, start, deadline, log, end)
    requires Succeeds(turns, start, deadline, list, k, m)
    ensures log != [] && Final(log, deadline)
  {
    var last := k + 1 + m;
    if !Final(log, deadline) {
      StaysOnCourse(turns, start, deadline, k, log);
      assert Arrives(turns, start, k, |log|) >= deadline;
      ListedBefore(turns, start, deadline, log, list, k, m);
      ArrivesGrows(turns, start, k, |log|, last);
      assert false;
    }
  }

  lemma PendingFailed(turns: nat -> Turn, start: int, deadline: int, k: nat, log: seq<Read>, n: nat)
    requires OnCourse(turns, start, deadline, k, log) && k < n < |log|
    ensures turns(n).pending.Err?
  {
    assert Heard(turns(n), true, log[n]);
  }

  /** A log nothing has ended is too short to hold the answer with the list. */
  lemma ListedBefore(turns: nat -> Turn, start: int, deadline: int, log: seq<Read>, list: Pending, k: nat, m: nat)
    requires OnCourse(turns, start, deadline, k, log) && Lists(turns, k, m, list)
    ensures |log| <= k + 1 + m
  {
    if |log| > k + 1 + m {
      PendingFailed(turns, start, deadline, k, log, k + 1 + m);
    }
  }

  lemma TimelyRead(turns: nat -> Turn, start: int, deadline: int, r: Read, list: Pending, k: nat, m: nat, n: nat)
    requires Lists(turns, k, m, list) && n < k + 1 + m
    requires r == ReadAt(turns(n), Arrives(turns, start, k, n), n > k, deadline)
    requires Arrives(turns, start, k, n) + turns(n).took < deadline
    ensures Heard(turns(n), n > k, r) && !r.outcome.Listed? && r.ended < deadline
  {
  }

  lemma LastIsTheList(turns: nat -> Turn, start: int, deadline: int, log: seq<Read>, r: Read, list: Pending, k: nat, m: nat)
    requires Final(log + [r], deadline)
    requires Succeeds(turns, start, deadline, list, k, m) && OnCourse(turns, start, deadline, k, log)
    requires r == ReadAt(turns(|log|), Arrives(turns, start, k, |log|), |log| > k, deadline)
    ensures r.outcome == Listed(list) && r.ended <= deadline
  {
    ListedBefore(turns, start, deadline, log, list, k, m);
    if |log| < k + 1 + m {
      TooEarlyToEnd(turns, start, deadline, log, r, list, k, m);
    } else {
      TheList(turns, start, deadline, r, list, k, m);
    }
  }

  lemma TheList(turns: nat -> Turn, start: int, deadline: int, r: Read, list: Pending, k: nat, m: nat)
    requires Lists(turns, k, m, list) && InTime(turns, start, deadline, k, k + 1 + m)
    requires r == ReadAt(turns(k + 1 + m), Arrives(turns, start, k, k + 1 + m), true, deadline)
    ensures r.outcome == Listed(list) && r.ended <= deadline
  {
  }

  lemma TooEarlyToEnd(turns: nat -> Turn, start: int, deadline: int, log: seq<Read>, r: Read, list: Pending, k: nat, m: nat)
    requires |log| < k + 1 + m && HeardAll(turns, deadline, k, log)
    requires Succeeds(turns, start, deadline, list, k, m)
    requires r == ReadAt(turns(|log|), Arrives(turns, start, k, |log|), |log| > k, deadline)
    ensures !Final(log + [r], deadline)
  {
    ArrivesGrows(turns, start, k, |log|, k + 1 + m);
    TimelyRead(turns, start, deadline, r, list, k, m, |log|);
    HeardGrows(turns, deadline, k, log, r);
    EarlyReadsGoOn(turns, deadline, log + [r], list, k, m);
  }

  /** Reads before the one that answers with the list do not end the wait. */
  lemma EarlyReadsGoOn(turns: nat -> Turn, deadline: int, log: seq<Read>, list: Pending, k: nat, m: nat)
    requires Restarts(turns, k) && Bearable(turns, k) && Lists(turns, k, m, list)
    requires 0 < |log| <= k + 1 + m
    requires HeardAll(turns, deadline, k, log) && log[|log| - 1].ended <= deadline
    ensures !Final(log, deadline)
  {
    var n := |log|;
    assert Heard(turns(n - 1), n - 1 > k, log[n - 1]);
    if POLL_READ_FAILURES <= n <= k {
      assert !SixFail(turns, n - POLL_READ_FAILURES);
      var j: nat :| n - POLL_READ_FAILURES <= j < n && !turns(j).startup.Err?;
      assert Heard(turns(j), false, log[j]);
    } else if k < n {
      assert Heard(turns(k), false, log[k]);
    }
    FailuresCount(log, POLL_READ_FAILURES);
  }

  lemma FinishSucceeds(turns: nat -> Turn, start: int, deadline: int, log: seq<Read>, list: Pending)
    returns (k: nat, m: nat)
    requires Trace(turns, start, deadline, log) && Ends(turns, start, deadline, log, Finished(list))
    ensures Succeeds(turns, start, deadline, list, k, m)
  {
    var n := |log| - 1;
    assert TraceAt(turns, start, deadline, log[..n], log[n]);
    assert RestartSeen(log[..n], deadline);
    k := FirstSeen(turns, start, deadline, log, n);
    m := n - 1 - k;
    LastRead(turns, start, deadline, k, log);
    FewFail(turns, start, deadline, log, k, m);
  }

  /** The read at which a restart is first seen to finish is at the turn the startup answers make it. */
  lemma FirstSeen(turns: nat -> Turn, start: int, deadline: int, log: seq<Read>, n: nat) returns (k: nat)
    requires Trace(turns, start, deadline, log) && n < |log| && RestartSeen(log[..n], deadline)
    ensures k < n && Restarts(turns, k)
  {
    k := 0;
    while !RestartSeen(log[..k + 1], deadline)
      invariant k < n && !RestartSeen(log[..k], deadline)
      decreases n - k
    {
      if k + 1 == n { assert false; }
      k := k + 1;
    }
    forall j: nat | j <= k ensures Heard(turns(j), false, log[j]) {
      if RestartSeen(log[..j], deadline) {
        assert log[..k][..j] == log[..j];
        SeenStays(log[..k], j, deadline);
        assert false;
      }
      HeardEarlier(turns, start, deadline, log, j);
    }
    SeenFirstAt(turns, start, deadline, log, k);
  }

  lemma SeenFirstAt(turns: nat -> Turn, start: int, deadline: int, log: seq<Read>, k: nat)
    requires Trace(turns, start, deadline, log) && k + 1 < |log|
    requires !RestartSeen(log[..k], deadline) && RestartSeen(log[..k + 1], deadline)
    requires forall j: nat | j <= k :: Heard(turns(j), false, log[j])
    ensures Restarts(turns, k)
  {
    assert log[..k + 1] == log[..k] + [log[k]];
    SeenGrows(log[..k], log[k], deadline);
    var i :| 0 <= i < k && Says(log[..k][i], Restarting, deadline);
    assert Heard(turns(i), false, log[i]) && Heard(turns(k), false, log[k]);
    forall i: nat, j: nat | i < j < k && turns(i).startup == Ok(Restarting) ensures turns(j).startup != Ok(Ready) {
      HeardEarlier(turns, start, deadline, log, i);
      HeardEarlier(turns, start, deadline, log, j);
      NotSeen(log, k, deadline, i, j);
      assert Heard(turns(i), false, log[i]) && Heard(turns(j), false, log[j]);
    }
  }

  lemma NotSeen(log: seq<Read>, k: nat, deadline: int, i: nat, j: nat)
    requires i < j < k <= |log| && !RestartSeen(log[..k], deadline)
    ensures !(Says(log[i], Restarting, deadline) && Says(log[j], Ready, deadline))
  {
    assert log[..k][i] == log[i] && log[..k][j] == log[j];
  }

  /** A read that is not the last one was answered, in time unless it failed. */
  lemma HeardEarlier(turns: nat -> Turn, start: int, deadline: int, log: seq<Read>, j: nat)
    requires Trace(turns, start, deadline, log) && j + 1 < |log|
    ensures Heard(turns(j), RestartSeen(log[..j], deadline), log[j])
    ensures log[j].outcome.Answered? ==> log[j].ended <= deadline
    ensures !log[j].outcome.Listed?
  {
    TracePrefix(turns, start, deadline, log, j);
    TracePrefix(turns, start, deadline, log, j + 1);
    assert log[..j + 1][j] == log[j];
  }

  lemma FewFail(turns: nat -> Turn, start: int, deadline: int, log: seq<Read>, k: nat, m: nat)
    requires Trace(turns, start, deadline, log) && k + 2 + m == |log|
    requires OnCourse(turns, start, deadline, k, log[..|log| - 1])
    ensures Bearable(turns, k) && m < POLL_READ_FAILURES
    ensures forall n: nat | k < n <= k + m :: turns(n).pending.Err?
  {
    var before := log[..|log| - 1];
    forall n: nat | k < n <= k + m ensures turns(n).pending.Err? {
      PendingFailed(turns, start, deadline, k, before, n);
    }
    if m >= POLL_READ_FAILURES {
      forall j | k < j <= k + POLL_READ_FAILURES ensures log[j].outcome.Failed? { assert Heard(turns(j), true, before[j]); }
      SixEnd(turns, start, deadline, log, k + 1);
      assert false;
    }
    forall n: nat | n + POLL_READ_FAILURES <= k ensures !SixFail(turns, n) {
      if SixFail(turns, n) {
        forall j | n <= j < n + POLL_READ_FAILURES ensures log[j].outcome.Failed? { assert Heard(turns(j), false, before[j]); }
        SixEnd(turns, start, deadline, log, n);
        assert false;
      }
    }
  }

  /** After six failures in a row nothing is read. */
  lemma SixEnd(turns: nat -> Turn, start: int, deadline: int, log: seq<Read>, n: nat)
    requires Trace(turns, start, deadline, log) && n + POLL_READ_FAILURES <= |log|
    requires forall j | n <= j < n + POLL_READ_FAILURES :: log[j].outcome.Failed?
    ensures |log| == n + POLL_READ_FAILURES
  {
    var p := n + POLL_READ_FAILURES;
    if p < |log| {
      TracePrefix(turns, start, deadline, log, p);
      FailuresCount(log[..p], POLL_READ_FAILURES);
      assert false;
    }
  }
}
