// The polling combinator of testkit_v2/util/tools.go and the world it polls.
//
// Time is counted in nanoseconds, like Go's time.Duration.
module Retry {
  import opened Wrappers

  const SECOND: nat := 1_000_000_000

  // Go's integer division truncates toward zero.
  function Quotient(a: int, b: int): int
    requires b > 0
  {
    if a >= 0 then a / b else -((-a) / b)
  }

  // Seconds between polls.
  function Latency(sec: int): int {
    var l := Quotient(sec + 15, 7);
    if l > 15 then 15 else l
  }

  // Fifteen seconds at most, else a seventh of the time and fifteen seconds, the fraction
  // dropped.
  lemma LatencyIs(sec: int)
    ensures sec >= 90 ==> Latency(sec) == 15
    ensures -15 <= sec < 90 ==> 7 * Latency(sec) <= sec + 15 < 7 * Latency(sec) + 7
    ensures sec < -15 ==> 7 * Latency(sec) - 7 < sec + 15 <= 7 * Latency(sec)
  {
  }

  // time.Sleep returns at once for a negative duration.
  function Pause(sec: int): nat {
    if Latency(sec) > 0 then Latency(sec) * SECOND else 0
  }

  // One call of the polled function; times count from the start of the wait.
  datatype Poll = Poll(err: Error, start: nat, end: nat)

  predicate PastDeadline(sec: int, p: Poll) {
    p.end >= (sec + 1) * SECOND
  }

  predicate Paced(sec: int, polls: seq<Poll>) {
    && (forall i :: 0 <= i < |polls| ==> polls[i].start <= polls[i].end)
    && (forall i :: 0 < i < |polls| ==> polls[i - 1].end + Pause(sec) <= polls[i].start)
  }

  // The polls of a wait that is still going on.
  predicate Waiting(sec: int, polls: seq<Poll>) {
    && Paced(sec, polls)
    && (forall i :: 0 <= i < |polls| ==> polls[i].err.Some? && !PastDeadline(sec, polls[i]))
  }

  // The polls of a finished wait: only the last one ended it.
  predicate Finished(sec: int, polls: seq<Poll>) {
    && polls != []
    && Paced(sec, polls)
    && Waiting(sec, polls[..|polls| - 1])
    && (Last(polls).err.None? || PastDeadline(sec, Last(polls)))
  }

  function Last(polls: seq<Poll>): Poll
    requires polls != []
  {
    polls[|polls| - 1]
  }

  // Polls last at most c, sleeps overrun by at most lag.
  predicate Brief(sec: int, polls: seq<Poll>, c: nat, lag: nat) {
    && (forall i :: 0 <= i < |polls| ==> polls[i].end <= polls[i].start + c)
    && (polls != [] ==> polls[0].start <= lag)
    && (forall i :: 0 < i < |polls| ==> polls[i].start <= polls[i - 1].end + Pause(sec) + lag)
  }

  // Every further poll either ends a wait or leaves it going on, never both.
  lemma Progress(sec: int, polls: seq<Poll>, p: Poll)
    requires Waiting(sec, polls) && Paced(sec, polls + [p])
    ensures Waiting(sec, polls + [p]) <==> !Finished(sec, polls + [p])
  {
    var next := polls + [p];
    assert next[..|next| - 1] == polls;
    assert next[|polls|] == p;
  }

  lemma NotLast(sec: int, polls: seq<Poll>, k: nat)
    requires Finished(sec, polls) && k + 1 < |polls|
    ensures polls[k].err.Some? && !PastDeadline(sec, polls[k])
  {
    assert polls[..|polls| - 1][k] == polls[k];
  }

  // A finished wait polls no more.
  lemma StopsOnce(sec: int, polls: seq<Poll>, all: seq<Poll>)
    requires Finished(sec, polls) && Finished(sec, all) && polls <= all
    ensures polls == all
  {
    assert all[|polls| - 1] == Last(polls);
    if |polls| < |all| {
      NotLast(sec, all, |polls| - 1);
    }
  }

  lemma {:induction false} Spacing(sec: int, polls: seq<Poll>, i: nat)
    requires Paced(sec, polls) && i < |polls| && Latency(sec) > 0
    ensures (i * Latency(sec)) * SECOND <= polls[i].start
  {
    if i > 0 {
      Spacing(sec, polls, i - 1);
      assert i * Latency(sec) == (i - 1) * Latency(sec) + Latency(sec);
    }
  }

  lemma ProductOrder(a: int, b: int, c: nat)
    requires a <= b
    ensures a * c <= b * c
  {
  }

  lemma QuotientBound(n: nat, gap: nat, sec: nat)
    requires gap > 0 && n * gap <= sec
    ensures n <= sec / gap
  {
    var q := sec / gap;
    assert sec < (q + 1) * gap;
    if n >= q + 1 {
      ProductOrder(q + 1, n, gap);
      assert false;
    }
  }

  // A wait cannot go on: before its deadline it makes at most sec / latency + 1 failing
  // polls, the number of latencies in sec + 1 seconds, rounded up.
  lemma WaitingIsBounded(sec: int, polls: seq<Poll>)
    requires Waiting(sec, polls)
    ensures sec < 0 ==> polls == []
    ensures sec >= 0 ==> Latency(sec) > 0 && |polls| <= sec / Latency(sec) + 1
  {
    if polls != [] {
      assert Last(polls).end / SECOND <= sec;
      if sec >= 0 {
        Spacing(sec, polls, |polls| - 1);
        QuotientBound(|polls| - 1, Latency(sec), sec);
      }
    }
  }

  lemma FinishedPollCount(sec: int, polls: seq<Poll>)
    requires Finished(sec, polls)
    ensures sec < 0 ==> |polls| == 1
    ensures sec >= 0 ==> Latency(sec) > 0 && |polls| <= sec / Latency(sec) + 2
  {
    WaitingIsBounded(sec, polls[..|polls| - 1]);
  }

  // Nanoseconds a wait stays strictly below.
  function Budget(sec: nat, c: nat, lag: nat): nat {
    (sec + 1 + Latency(sec)) * SECOND + c + lag
  }

  // A wait fails only from sec + 1 seconds on, and ends before one more sleep and poll.
  lemma FinishedTiming(sec: nat, polls: seq<Poll>, c: nat, lag: nat)
    requires Finished(sec, polls) && Brief(sec, polls, c, lag)
    ensures Last(polls).err.Some? ==> (sec + 1) * SECOND <= Last(polls).end
    ensures Last(polls).end < Budget(sec, c, lag)
  {
    if |polls| > 1 {
      var before := polls[..|polls| - 1];
      assert before[|before| - 1] == polls[|polls| - 2];
      assert !PastDeadline(sec, polls[|polls| - 2]);
    }
  }

  // What the error is plays no part: a wait ends with its first poll exactly when that
  // poll succeeded or ran past the deadline.
  lemma EndsAtFirst(sec: int, polls: seq<Poll>)
    requires Finished(sec, polls)
    ensures |polls| == 1 <==> polls[0].err.None? || PastDeadline(sec, polls[0])
  {
    if |polls| > 1 {
      NotLast(sec, polls, 0);
    }
  }

  // Instants and history positions between which something happened.
  datatype Span = Span(start: nat, end: nat, first: nat, last: nat)

  // A wait of so many seconds fitted into the span: it ended in time, and failed only
  // after its deadline.
  predicate Timed(sec: nat, w: Span, ok: bool, c: nat, lag: nat) {
    && w.start <= w.end
    && w.end - w.start < Budget(sec, c, lag)
    && (!ok ==> (sec + 1) * SECOND <= w.end - w.start)
  }

  // A condition that holds from instant t on, with one poll's length left before the
  // deadline, is never reported as a failure.
  lemma Detects(sec: int, polls: seq<Poll>, c: nat, lag: nat, t: int)
    requires Finished(sec, polls) && Brief(sec, polls, c, lag)
    requires t + c <= (sec + 1) * SECOND
    requires forall i :: 0 <= i < |polls| && polls[i].start >= t ==> polls[i].err.None?
    ensures Last(polls).err.None?
  {
  }

  // ---- The polled world ----

  datatype Snapshot<+W> = Snapshot(at: nat, world: W)

  // A poll's verdict is the probe's reading of two recorded instants of that poll.
  ghost predicate Reading<W>(h: seq<Snapshot<W>>, probe: (nat, W, W) -> Error, k: nat, poll: Poll, at: (nat, nat),
                             start: nat, from: nat) {
    && from <= at.0 <= at.1 < |h|
    && poll.err == probe(k, h[at.0].world, h[at.1].world)
    && start + poll.start <= h[at.0].at <= h[at.1].at <= start + poll.end
  }

  ghost predicate Readings<W>(h: seq<Snapshot<W>>, probe: (nat, W, W) -> Error, polls: seq<Poll>,
                              seen: seq<(nat, nat)>, start: nat, from: nat) {
    |seen| == |polls| && forall k :: 0 <= k < |polls| ==> Reading(h, probe, k, polls[k], seen[k], start, from)
  }

  lemma ReadOneMore<W>(h: seq<Snapshot<W>>, h': seq<Snapshot<W>>, probe: (nat, W, W) -> Error, polls: seq<Poll>,
                       seen: seq<(nat, nat)>, poll: Poll, at: (nat, nat), start: nat, from: nat)
    requires h <= h' && Readings(h, probe, polls, seen, start, from)
    requires Reading(h', probe, |polls|, poll, at, start, from)
    ensures Readings(h', probe, polls + [poll], seen + [at], start, from)
  {
    forall k | 0 <= k < |polls|
      ensures Reading(h', probe, k, polls[k], seen[k], start, from)
    {
      assert Reading(h, probe, k, polls[k], seen[k], start, from);
    }
  }

  lemma ReadingsLast<W>(h: seq<Snapshot<W>>, h': seq<Snapshot<W>>, probe: (nat, W, W) -> Error, polls: seq<Poll>,
                        seen: seq<(nat, nat)>, start: nat, from: nat)
    requires h <= h' && Readings(h, probe, polls, seen, start, from)
    ensures Readings(h', probe, polls, seen, start, from)
  {
    forall k | 0 <= k < |polls|
      ensures Reading(h', probe, k, polls[k], seen[k], start, from)
    {
      assert Reading(h, probe, k, polls[k], seen[k], start, from);
    }
  }

  // The next poll starts at t: at once, or after the sleep.
  predicate DueAt(sec: int, polls: seq<Poll>, t: int, lag: nat) {
    if polls == [] then t == 0 else Last(polls).end + Pause(sec) <= t <= Last(polls).end + Pause(sec) + lag
  }

  lemma PacedOneMore(sec: int, polls: seq<Poll>, p: Poll, lag: nat)
    requires Paced(sec, polls) && p.start <= p.end && DueAt(sec, polls, p.start, lag)
    ensures Paced(sec, polls + [p])
  {
    hide Pause;
    var next := polls + [p];
    assert forall i :: 0 <= i < |polls| ==> next[i] == polls[i];
  }

  lemma BriefOneMore(sec: int, polls: seq<Poll>, p: Poll, c: nat, lag: nat)
    requires Brief(sec, polls, c, lag) && p.end <= p.start + c && DueAt(sec, polls, p.start, lag)
    ensures Brief(sec, polls + [p], c, lag)
  {
    hide Pause;
    var next := polls + [p];
    assert forall i :: 0 <= i < |polls| ==> next[i] == polls[i];
  }

  lemma WaitingOneMore(sec: int, polls: seq<Poll>, p: Poll)
    requires Waiting(sec, polls) && Paced(sec, polls + [p])
    ensures Waiting(sec, polls + [p]) <==> p.err.Some? && !PastDeadline(sec, p)
  {
    hide Pause, PastDeadline, Paced;
    var next := polls + [p];
    assert next[|polls|] == p;
    assert forall i :: 0 <= i < |polls| ==> next[i] == polls[i];
  }

  lemma OnePollMore(sec: int, polls: seq<Poll>, p: Poll, c: nat, lag: nat)
    requires Waiting(sec, polls) && Brief(sec, polls, c, lag)
    requires p.start <= p.end <= p.start + c && DueAt(sec, polls, p.start, lag)
    ensures Waiting(sec, polls + [p]) <==> !Finished(sec, polls + [p])
    ensures Waiting(sec, polls + [p]) <==> p.err.Some? && !PastDeadline(sec, p)
    ensures Brief(sec, polls + [p], c, lag)
    ensures Last(polls + [p]) == p
  {
    hide Pause, Paced, Brief, DueAt, PastDeadline, Finished;
    PacedOneMore(sec, polls, p, lag);
    BriefOneMore(sec, polls, p, c, lag);
    WaitingOneMore(sec, polls, p);
    Progress(sec, polls, p);
  }

  // Whole seconds: a check on truncated seconds is a check on nanoseconds.
  lemma GoesOn(sec: int, p: Poll)
    ensures PastDeadline(sec, p) <==> p.end / SECOND > sec
    ensures !PastDeadline(sec, p) ==> Pause(sec) > 0 && p.end < (sec + 1) * SECOND
  {
  }

  datatype LogLine = LogLine(at: int, message: string)

  predicate Spaced(logs: seq<LogLine>) {
    forall i :: 0 < i < |logs| ==> logs[i - 1].at + 10 * SECOND < logs[i].at
  }

  // The lines a wait adds: the same message twice in a row is two minutes apart.
  predicate Throttled(logs: seq<LogLine>, before: seq<LogLine>) {
    && before <= logs
    && (forall i :: |before| < i < |logs| && logs[i - 1].message == logs[i].message ==>
      logs[i - 1].at + 120 * SECOND < logs[i].at)
  }

  predicate LastSaid(logs: seq<LogLine>, before: seq<LogLine>, message: string) {
    if logs == before then message == "" else logs != [] && message == logs[|logs| - 1].message
  }

  // The history of a stretch of time, in which what was permanent stays.
  ghost predicate Recorded<W>(h: seq<Snapshot<W>>, h': seq<Snapshot<W>>, from: nat, to: nat,
                              permanent: W -> set<string>, kept: set<string>) {
    && from <= to
    && |h| <= |h'|
    && (forall k :: |h| <= k < |h'| ==> kept <= permanent(h'[k].world) && from <= h'[k].at <= to)
  }

  lemma RecordedTwice<W>(h: seq<Snapshot<W>>, h': seq<Snapshot<W>>, h'': seq<Snapshot<W>>, t: nat, t': nat, t'': nat,
                         permanent: W -> set<string>, kept: set<string>, kept': set<string>)
    requires Recorded(h, h', t, t', permanent, kept) && Recorded(h', h'', t', t'', permanent, kept')
    requires kept <= kept' && h' <= h''
    ensures Recorded(h, h'', t, t'', permanent, kept)
  {
    assert forall k :: 0 <= k < |h'| ==> h''[k] == h'[k];
  }

  // Where a wait began.
  datatype Begin<+W> = Begin(start: nat, world: W, history: seq<Snapshot<W>>, logs: seq<LogLine>)

  // The clock, and a world that other actors change at any time. What is permanent in
  // the world nobody removes.
  class Session<W(0,!new)> {
    var world: W
    var now: nat
    ghost var history: seq<Snapshot<W>>
    const permanent: W -> set<string>
    const maxPoll: nat
    const maxLag: nat
    var lastLog: int
    var logs: seq<LogLine>

    ghost predicate Valid()
      reads this
    {
      && Spaced(logs)
      && (logs != [] ==> lastLog == logs[|logs| - 1].at)
    }

    // What holds between two instants of a session.
    twostate predicate Later()
      reads this
    {
      && Valid()
      && old(now) <= now
      && permanent(old(world)) <= permanent(world)
      && old(history) <= history
      && Recorded(old(history), history, old(now), now, permanent, permanent(old(world)))
    }

    constructor (world: W, now: nat, lastLog: int, permanent: W -> set<string>, maxPoll: nat, maxLag: nat)
      ensures Valid() && this.world == world && this.now == now && history == [] && logs == []
      ensures this.permanent == permanent && this.maxPoll == maxPoll && this.maxLag == maxLag
    {
      this.world, this.now, this.lastLog, logs := world, now, lastLog, [];
      this.permanent, this.maxPoll, this.maxLag := permanent, maxPoll, maxLag;
      history := [];
    }

    // Other actors run; the clock moves to an instant between earliest and latest.
    method Elapse(earliest: nat, latest: nat)
      requires Valid() && now <= earliest <= latest
      modifies this`world, this`now, this`history
      ensures Later() && earliest <= now <= latest
      ensures history == old(history) + [Snapshot(now, world)]
    {
      assert permanent(world) <= permanent(world);
      var w: W :| permanent(world) <= permanent(w);
      var t: nat :| earliest <= t <= latest;
      world, now := w, t;
      history := history + [Snapshot(now, world)];
    }

    // The k-th call of the polled function: it may make two requests, so the probe
    // reads the world at two instants.
    method PollOnce(k: nat, probe: (nat, W, W) -> Error, ghost start: nat)
      returns (err: Error, read: W, ghost poll: Poll)
      requires Valid() && start <= now
      modifies this`world, this`now, this`history
      ensures Later()
      ensures |history| == |old(history)| + 2
      ensures poll == Poll(err, old(now) - start, now - start) && now <= old(now) + maxPoll
      ensures Reading(history, probe, k, poll, (|history| - 2, |history| - 1), start, |old(history)|)
      ensures read == history[|history| - 2].world
    {
      ghost var began := now;
      var latest := now + maxPoll;
      Elapse(now, latest);
      read := world;
      Elapse(now, latest);
      err := probe(k, read, world);
      poll := Poll(err, began - start, now - start);
    }

    // The rate-limited progress line.
    method Note(message: string, lastMsg: string, ghost before: seq<LogLine>) returns (msg: string)
      requires Valid() && Throttled(logs, before) && LastSaid(logs, before, lastMsg)
      modifies this`logs, this`lastLog
      ensures Valid() && Throttled(logs, before) && LastSaid(logs, before, msg)
    {
      msg := lastMsg;
      if (now - lastLog > 10 * SECOND && lastMsg != message) || now - lastLog > 120 * SECOND {
        logs := logs + [LogLine(now, message)];
        lastLog, msg := now, message;
      }
    }

    // A wait that began at start with the given history and log, after these polls.
    ghost predicate InWait(sec: int, probe: (nat, W, W) -> Error, w: Begin<W>, polls: seq<Poll>,
                           seen: seq<(nat, nat)>, lastMsg: string)
      reads this
    {
      && Valid()
      && Since(w)
      && Waiting(sec, polls) && Brief(sec, polls, maxPoll, maxLag)
      && w.start <= now
      && DueAt(sec, polls, now - w.start, maxLag)
      && Readings(history, probe, polls, seen, w.start, |w.history|)
      && Throttled(logs, w.logs) && LastSaid(logs, w.logs, lastMsg)
    }

    ghost predicate Since(w: Begin<W>)
      reads this
    {
      && w.history <= history
      && permanent(w.world) <= permanent(world)
      && Recorded(w.history, history, w.start, now, permanent, permanent(w.world))
    }

    // The note and the sleep after a poll that does not end the wait.
    method Rest(sec: int, probe: (nat, W, W) -> Error, message: string, lastMsg: string, ghost w: Begin<W>,
                ghost polls: seq<Poll>, ghost seen: seq<(nat, nat)>)
      returns (msg: string)
      requires Valid() && Since(w) && polls != [] && now == w.start + Last(polls).end
      requires Waiting(sec, polls) && Brief(sec, polls, maxPoll, maxLag)
      requires Readings(history, probe, polls, seen, w.start, |w.history|)
      requires Throttled(logs, w.logs) && LastSaid(logs, w.logs, lastMsg)
      modifies this
      ensures InWait(sec, probe, w, polls, seen, msg) && now >= old(now) + Pause(sec)
    {
      hide Recorded, Waiting, Brief, Readings, Pause, Spaced, Throttled, LastSaid;
      msg := Note(message, lastMsg, w.logs);
      label asleep:
      Elapse(now + Pause(sec), now + Pause(sec) + maxLag);
      RecordedTwice(w.history, old@asleep(history), history, w.start, old@asleep(now), now,
                    permanent, permanent(w.world), permanent(old@asleep(world)));
      ReadingsLast(old@asleep(history), history, probe, polls, seen, w.start, |w.history|);
    }

    // A poll of a wait has just been made.
    ghost predicate Polled(sec: int, probe: (nat, W, W) -> Error, w: Begin<W>, polls: seq<Poll>,
                           seen: seq<(nat, nat)>, lastMsg: string)
      reads this
    {
      && Valid()
      && Since(w)
      && polls != [] && now == w.start + Last(polls).end
      && Brief(sec, polls, maxPoll, maxLag)
      && Readings(history, probe, polls, seen, w.start, |w.history|)
      && Throttled(logs, w.logs) && LastSaid(logs, w.logs, lastMsg)
      && (Waiting(sec, polls) <==> !Finished(sec, polls))
      && (Waiting(sec, polls) <==> Last(polls).err.Some? && !PastDeadline(sec, Last(polls)))
    }

    method PollNow(sec: int, probe: (nat, W, W) -> Error, i: nat, start: nat, ghost lastMsg: string,
                   ghost w: Begin<W>, ghost polls: seq<Poll>, ghost seen: seq<(nat, nat)>)
      returns (err: Error, read: W, ghost poll: Poll, ghost at: (nat, nat))
      requires InWait(sec, probe, w, polls, seen, lastMsg) && start == w.start && i == |polls|
      modifies this`world, this`now, this`history
      ensures poll.err == err && old(now) <= now
      ensures at.0 < |history| && read == history[at.0].world
      ensures Polled(sec, probe, w, polls + [poll], seen + [at], lastMsg)
    {
      err, read, poll := PollOnce(i, probe, start);
      at := (|history| - 2, |history| - 1);
      hide Recorded, Waiting, Finished, Brief, Readings, DueAt, PastDeadline, Spaced, Throttled, LastSaid;
      RecordedTwice(w.history, old(history), history, start, old(now), now,
                    permanent, permanent(w.world), permanent(old(world)));
      OnePollMore(sec, polls, poll, maxPoll, maxLag);
      ReadOneMore(old(history), history, probe, polls, seen, poll, at, start, |w.history|);
    }

    // One poll and, unless it ends the wait, the rest after it.
    method Round(sec: int, probe: (nat, W, W) -> Error, i: nat, start: nat, lastMsg: string, ghost w: Begin<W>,
                 ghost polls: seq<Poll>, ghost seen: seq<(nat, nat)>)
      returns (done: bool, err: Error, read: W, msg: string, ghost poll: Poll, ghost at: (nat, nat))
      requires InWait(sec, probe, w, polls, seen, lastMsg) && start == w.start && i == |polls|
      modifies this
      ensures poll.err == err
      ensures !done ==> InWait(sec, probe, w, polls + [poll], seen + [at], msg)
      ensures !done ==> old(now) < now && old(now) - start < (sec + 1) * SECOND
      ensures done ==> InWaitEnds(sec, probe, w, polls + [poll], seen + [at])
      ensures done ==> at.0 < |history| && read == history[at.0].world
    {
      hide InWait, Since, Recorded, Waiting, Finished, Brief, Readings, Pause, PastDeadline;
      hide Spaced, Throttled, LastSaid;
      err, read, poll, at := PollNow(sec, probe, i, start, lastMsg, w, polls, seen);
      GoesOn(sec, poll);
      done, msg := true, lastMsg;
      if err.None? {
        return;
      }
      if (now - start) / SECOND > sec {
        return;
      }
      done := false;
      msg := Rest(sec, probe, err.value, lastMsg, w, polls + [poll], seen + [at]);
    }

    ghost predicate InWaitEnds(sec: int, probe: (nat, W, W) -> Error, w: Begin<W>, polls: seq<Poll>,
                               seen: seq<(nat, nat)>)
      reads this
    {
      && Valid()
      && Since(w)
      && Finished(sec, polls) && Brief(sec, polls, maxPoll, maxLag)
      && now == w.start + Last(polls).end
      && Readings(history, probe, polls, seen, w.start, |w.history|)
      && Throttled(logs, w.logs)
    }

    // Also returns what the last poll read first, which is what the closures of the
    // source leave in captured variables.
    method RetrySec(sec: int, probe: (nat, W, W) -> Error)
      returns (err: Error, read: W, ghost polls: seq<Poll>, ghost seen: seq<(nat, nat)>)
      requires Valid()
      modifies this
      ensures Later()
      ensures Finished(sec, polls) && err == Last(polls).err && now == old(now) + Last(polls).end
      ensures Brief(sec, polls, maxPoll, maxLag)
      ensures Readings(history, probe, polls, seen, old(now), |old(history)|)
      ensures seen != [] && seen[|seen| - 1].0 < |history| && read == history[seen[|seen| - 1].0].world
      ensures Throttled(logs, old(logs))
    {
      ghost var w := Begin(now, world, history, logs);
      var start, lastMsg, i := now, "", 0;
      polls, seen := [], [];
      assert InWait(sec, probe, w, polls, seen, lastMsg);
      var done := false;
      while true
        invariant InWait(sec, probe, w, polls, seen, lastMsg) && i == |polls| && start <= now
        decreases (sec + 1) * SECOND - (now - start)
      {
        hide InWait;
        ghost var poll, at;
        done, err, read, lastMsg, poll, at := Round(sec, probe, i, start, lastMsg, w, polls, seen);
        polls, seen := polls + [poll], seen + [at];
        if done {
          return;
        }
        i := i + 1;
      }
    }
  }
}
