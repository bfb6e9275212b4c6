/**
 Properties of the commit scheduler and the publisher: the date law, the
 idempotent repository setup, the commits a run leaves in the log and in what
 order, the progress events, cancellation by the callback, and the branch
 that is pushed.
 */
module GitBotProofs {
  import opened Wrappers
  import opened Strings
  import opened PatternCalculator
  import opened PatternProofs
  import opened GitBot

  /** The calendar cell a day number falls in, relative to the anchor one year before `now`. */
  function CellOfDate(now: int, date: int): (int, int)
  {
    var offset := date - (now - DaysBack) - 1;
    (offset / 7, offset % 7)
  }

  /** Day `(0, 0)` is the day after the anchor; every cell is one day after
      the previous weekday; and the cell can be read back from its date. */
  lemma DateLaw(now: int, weeks: int, days: int)
    requires 0 <= days < 7
    ensures CalculateDate(now, 0, 0) == now - 365 + 1
    ensures CalculateDate(now, weeks, days) == now - 365 + 7 * weeks + days + 1
    ensures CellOfDate(now, CalculateDate(now, weeks, days)) == (weeks, days)
  {
    var offset := 7 * weeks + days;
    assert offset / 7 == weeks && offset % 7 == days;
  }

  /** Chronologically ordered cells get strictly increasing dates under the same clock reading. */
  lemma DateMonotonic(now: int, a: Coord, b: Coord)
    requires a.day < 7 && b.day < 7 && Precedes(a, b)
    ensures CalculateDate(now, a.week, a.day) < CalculateDate(now, b.week, b.day)
  {
  }

  /** A second setup with the same URL changes nothing: still exactly one
      `origin`, bound to that URL, and everything else as before. */
  lemma InitializeIdempotent(existing: Option<Repo>, url: string, branch: string, branch2: string)
    ensures InitializeRepo(Some(InitializeRepo(existing, url, branch)), url, branch2)
            == InitializeRepo(existing, url, branch)
  {
    var first := InitializeRepo(existing, url, branch);
    var second := InitializeRepo(Some(first), url, branch2);
    assert second.remotes == first.remotes;
  }

  /** The commit the scheduler makes (intensity times) for cell `j`. */
  ghost function PatternCommit(coords: seq<Coord>, j: nat, s: Settings, clock: nat -> int): Commit
    requires j < |coords|
  {
    var c := coords[j];
    var date := CalculateDate(clock(j), c.week, c.day);
    Commit(Given(PatternMessage(c)), date, date, Signature(s.authorName, s.authorEmail), Stamp(date, c.week, c.day))
  }

  /** The commits for cells `from .. to-1`: one batch of `Repetitions(intensity)`
      identical commits per cell, cells in order. */
  ghost function Batches(coords: seq<Coord>, from: nat, to: nat, s: Settings, clock: nat -> int): seq<Commit>
    requires from <= to <= |coords|
    decreases (to as int) - from
  {
    if from == to then []
    else seq(Repetitions(s.intensity), _ => PatternCommit(coords, from, s, clock))
         + Batches(coords, from + 1, to, s, clock)
  }

  /** The progress events for cells `from .. to-1`. */
  ghost function Events(coords: seq<Coord>, from: nat, to: nat): (r: seq<Progress>)
    requires from <= to <= |coords|
  {
    seq(to - from, k requires 0 <= k < to - from => EventAt(coords, from + k))
  }

  lemma EventsCons(coords: seq<Coord>, i: nat, stop: nat)
    requires i < stop <= |coords|
    ensures Events(coords, i, stop) == [EventAt(coords, i)] + Events(coords, i + 1, stop)
  {
  }

  /** Index of the first event from cell `i` on that makes the callback raise,
      or `|coords|` when none does. */
  ghost function FirstRaise(coords: seq<Coord>, callback: Callback, i: nat): (r: nat)
    requires i <= |coords|
    ensures i <= r <= |coords|
    ensures forall j | i <= j < r :: callback(EventAt(coords, j)).None?
    ensures r < |coords| ==> callback(EventAt(coords, r)).Some?
    decreases |coords| - i
  {
    if i == |coords| then |coords|
    else if callback(EventAt(coords, i)).Some? then i
    else FirstRaise(coords, callback, i + 1)
  }

  /** Cells from `i` on whose commits a run makes: all of them, or up to and
      including the one after which the callback raises. */
  ghost function ProcessedFrom(coords: seq<Coord>, i: nat, s: Settings): (r: nat)
    requires i <= |coords|
    ensures i <= r <= |coords|
  {
    match s.callback
    case None => |coords|
    case Some(callback) =>
      var k := FirstRaise(coords, callback, i);
      if k < |coords| then k + 1 else |coords|
  }

  /** The exception the callback raises from cell `i` on, if any. */
  ghost function RaisedFrom(coords: seq<Coord>, i: nat, s: Settings): Option<string>
    requires i <= |coords|
  {
    match s.callback
    case None => None
    case Some(callback) =>
      var k := FirstRaise(coords, callback, i);
      if k < |coords| then callback(EventAt(coords, k)) else None
  }

  lemma MarkedAsPattern(repo: Repo, coords: seq<Coord>, i: nat, s: Settings, clock: nat -> int)
    requires i < |coords|
    ensures MarkCommit(repo, coords[i].week, coords[i].day, s.intensity, Some(PatternMessage(coords[i])),
                       s.authorName, s.authorEmail, clock(i)).log
            == repo.log + seq(Repetitions(s.intensity), _ => PatternCommit(coords, i, s, clock))
  {
    var c := coords[i];
    var marked := MarkCommit(repo, c.week, c.day, s.intensity, Some(PatternMessage(c)),
                             s.authorName, s.authorEmail, clock(i));
    var expected := repo.log + seq(Repetitions(s.intensity), _ => PatternCommit(coords, i, s, clock));
    assert |marked.log| == |expected|;
    forall k | 0 <= k < |expected|
      ensures marked.log[k] == expected[k]
    {
      if k < |repo.log| {
        assert marked.log[k] == marked.log[..|repo.log|][k];
      }
    }
  }

  lemma AppendAssociative<T>(a: seq<T>, b: seq<T>, c: seq<T>)
    ensures (a + b) + c == a + (b + c)
  {
  }

  lemma AppendNothing<T>(a: seq<T>)
    ensures a + [] == a
  {
  }

  /** The loop from cell `i` on appends the commits of the processed cells, in order. */
  lemma {:induction false} LoopLog(repo: Repo, coords: seq<Coord>, i: nat, s: Settings, clock: nat -> int)
    requires i <= |coords|
    ensures CommitLoop(repo, coords, i, s, clock).repo.log
            == repo.log + Batches(coords, i, ProcessedFrom(coords, i, s), s, clock)
    decreases |coords| - i
  {
    if i < |coords| {
      var c := coords[i];
      var marked := MarkCommit(repo, c.week, c.day, s.intensity, Some(PatternMessage(c)),
                               s.authorName, s.authorEmail, clock(i));
      var rest := CommitLoop(marked, coords, i + 1, s, clock);
      var batch := seq(Repetitions(s.intensity), _ => PatternCommit(coords, i, s, clock));
      MarkedAsPattern(repo, coords, i, s, clock);
      LoopLog(marked, coords, i + 1, s, clock);
      if s.callback.Some? && s.callback.value(EventAt(coords, i)).Some? {
        assert CommitLoop(repo, coords, i, s, clock).repo == marked;
        assert ProcessedFrom(coords, i, s) == i + 1;
        AppendNothing(batch);
        assert Batches(coords, i, i + 1, s, clock) == batch;
      } else {
        assert CommitLoop(repo, coords, i, s, clock).repo == rest.repo;
        var stop := ProcessedFrom(coords, i + 1, s);
        assert ProcessedFrom(coords, i, s) == stop;
        var later := Batches(coords, i + 1, stop, s, clock);
        assert Batches(coords, i, stop, s, clock) == batch + later;
        AppendAssociative(repo.log, batch, later);
      }
    }
  }

  /** The events the loop emits from cell `i` on with callback `callback`:
      one per cell, up to and including the one that makes it raise. */
  ghost function CallbackEvents(coords: seq<Coord>, i: nat, callback: Callback): seq<Progress>
    requires i <= |coords|
    decreases |coords| - i
  {
    if i == |coords| then []
    else if callback(EventAt(coords, i)).Some? then [EventAt(coords, i)]
    else [EventAt(coords, i)] + CallbackEvents(coords, i + 1, callback)
  }

  /** The loop's events follow `CallbackEvents`, whatever the repository. */
  lemma {:induction false} LoopEventsShape(repo: Repo, coords: seq<Coord>, i: nat, s: Settings, clock: nat -> int)
    requires i <= |coords|
    ensures CommitLoop(repo, coords, i, s, clock).events
            == (if s.callback.Some? then CallbackEvents(coords, i, s.callback.value) else [])
    decreases |coords| - i
  {
    if i < |coords| {
      var c := coords[i];
      var marked := MarkCommit(repo, c.week, c.day, s.intensity, Some(PatternMessage(c)),
                               s.authorName, s.authorEmail, clock(i));
      LoopEventsShape(marked, coords, i + 1, s, clock);
    }
  }

  /** `CallbackEvents` is the run of events of the processed cells. */
  lemma {:induction false} CallbackEventsProcessed(coords: seq<Coord>, i: nat, s: Settings)
    requires i <= |coords| && s.callback.Some?
    ensures CallbackEvents(coords, i, s.callback.value) == Events(coords, i, ProcessedFrom(coords, i, s))
    decreases |coords| - i
  {
    if i < |coords| {
      var event := EventAt(coords, i);
      var stop := ProcessedFrom(coords, i, s);
      EventsCons(coords, i, stop);
      if s.callback.value(event).Some? {
        assert stop == i + 1;
        assert |Events(coords, i + 1, stop)| == 0;
        AppendNothing([event]);
      } else {
        CallbackEventsProcessed(coords, i + 1, s);
        assert stop == ProcessedFrom(coords, i + 1, s);
      }
    }
  }

  /** The loop from cell `i` on emits one event per processed cell when there
      is a callback, and none without one. */
  lemma LoopEvents(repo: Repo, coords: seq<Coord>, i: nat, s: Settings, clock: nat -> int)
    requires i <= |coords|
    ensures CommitLoop(repo, coords, i, s, clock).events
            == (if s.callback.Some? then Events(coords, i, ProcessedFrom(coords, i, s)) else [])
  {
    LoopEventsShape(repo, coords, i, s, clock);
    if s.callback.Some? {
      CallbackEventsProcessed(coords, i, s);
    }
  }

  /** The loop from cell `i` on ends with the callback's exception exactly when it raised. */
  lemma {:induction false} LoopRaised(repo: Repo, coords: seq<Coord>, i: nat, s: Settings, clock: nat -> int)
    requires i <= |coords|
    ensures CommitLoop(repo, coords, i, s, clock).raised == RaisedFrom(coords, i, s)
    decreases |coords| - i
  {
    if i < |coords| {
      var c := coords[i];
      var marked := MarkCommit(repo, c.week, c.day, s.intensity, Some(PatternMessage(c)),
                               s.authorName, s.authorEmail, clock(i));
      LoopRaised(marked, coords, i + 1, s, clock);
    }
  }

  /** The loop leaves the remotes, HEAD and the pushes alone. */
  lemma {:induction false} LoopFrame(repo: Repo, coords: seq<Coord>, i: nat, s: Settings, clock: nat -> int)
    requires i <= |coords|
    ensures var r := CommitLoop(repo, coords, i, s, clock);
      r.repo.remotes == repo.remotes && r.repo.head == repo.head && r.repo.pushes == repo.pushes
    decreases |coords| - i
  {
    if i < |coords| {
      var c := coords[i];
      var marked := MarkCommit(repo, c.week, c.day, s.intensity, Some(PatternMessage(c)),
                               s.authorName, s.authorEmail, clock(i));
      LoopFrame(marked, coords, i + 1, s, clock);
    }
  }

  /** What the loop from cell `i` on does: the commits of the processed cells
      in order, one event per processed cell when there is a callback, the
      callback's exception if it raised, and nothing else changed. */
  lemma CommitLoopEffect(repo: Repo, coords: seq<Coord>, i: nat, s: Settings, clock: nat -> int)
    requires i <= |coords|
    ensures var r := CommitLoop(repo, coords, i, s, clock);
      && r.repo.log == repo.log + Batches(coords, i, ProcessedFrom(coords, i, s), s, clock)
      && r.events == (if s.callback.Some? then Events(coords, i, ProcessedFrom(coords, i, s)) else [])
      && r.raised == RaisedFrom(coords, i, s)
      && r.repo.remotes == repo.remotes && r.repo.head == repo.head && r.repo.pushes == repo.pushes
  {
    LoopLog(repo, coords, i, s, clock);
    LoopEvents(repo, coords, i, s, clock);
    LoopRaised(repo, coords, i, s, clock);
    LoopFrame(repo, coords, i, s, clock);
  }

  lemma {:induction false} BatchesLength(coords: seq<Coord>, from: nat, to: nat, s: Settings, clock: nat -> int)
    requires from <= to <= |coords|
    ensures |Batches(coords, from, to, s, clock)| == (to - from) * Repetitions(s.intensity)
    decreases (to as int) - from
  {
    if from < to {
      BatchesLength(coords, from + 1, to, s, clock);
      var n := Repetitions(s.intensity);
      assert (to - from) * n == n + (to - (from + 1)) * n;
    }
  }

  lemma MulSucc(a: nat, n: nat)
    ensures (a + 1) * n == a * n + n
  {
  }

  /** Entry `t` of the batch of cell `j` is that cell's commit. */
  lemma {:induction false} BatchEntry(coords: seq<Coord>, from: nat, to: nat, s: Settings, clock: nat -> int, j: nat, t: nat)
    requires from <= j < to <= |coords| && t < Repetitions(s.intensity)
    ensures var k := (j - from) * Repetitions(s.intensity) + t;
      && 0 <= k < |Batches(coords, from, to, s, clock)|
      && Batches(coords, from, to, s, clock)[k] == PatternCommit(coords, j, s, clock)
    decreases (to as int) - from
  {
    var n := Repetitions(s.intensity);
    var head := seq(n, _ => PatternCommit(coords, from, s, clock));
    var rest := Batches(coords, from + 1, to, s, clock);
    assert Batches(coords, from, to, s, clock) == head + rest;
    BatchesLength(coords, from + 1, to, s, clock);
    if j == from {
      assert (j - from) * n + t == t;
    } else {
      BatchEntry(coords, from + 1, to, s, clock, j, t);
      var d: nat := j - (from + 1);
      MulSucc(d, n);
      assert (j - from) * n + t == n + (d * n + t);
    }
  }

  /** The number of cells a run commits: all of them unless the callback
      raises, in which case exactly those up to and including the cell whose
      event made it raise. */
  ghost function Processed(coords: seq<Coord>, s: Settings): (r: nat)
    ensures r <= |coords|
  {
    ProcessedFrom(coords, 0, s)
  }

  /** A run appends `intensity` commits per processed cell, cell by cell, and
      keeps the commits that were already there. */
  lemma ScheduleLog(repo: Repo, coords: seq<Coord>, s: Settings, clock: nat -> int, transport: Option<string>)
    ensures var run := CreatePatternCommits(repo, coords, s, clock, transport);
      && run.repo.log == repo.log + Batches(coords, 0, Processed(coords, s), s, clock)
      && |run.repo.log| == |repo.log| + Processed(coords, s) * Repetitions(s.intensity)
      && (s.intensity <= 0 ==> run.repo.log == repo.log)
  {
    CommitLoopEffect(repo, coords, 0, s, clock);
    BatchesLength(coords, 0, Processed(coords, s), s, clock);
  }

  /** The `t`-th commit of the batch of processed cell `j` carries that cell's
      message "Pattern: {char} ({week},{day})", its date as author and commit
      date, and its record as the data file content. */
  lemma ScheduledCommit(repo: Repo, coords: seq<Coord>, s: Settings, clock: nat -> int, transport: Option<string>, j: nat, t: nat)
    requires j < Processed(coords, s) && t < Repetitions(s.intensity)
    ensures var run := CreatePatternCommits(repo, coords, s, clock, transport);
      var k := |repo.log| + j * Repetitions(s.intensity) + t;
      var date := CalculateDate(clock(j), coords[j].week, coords[j].day);
      && 0 <= k < |run.repo.log|
      && run.repo.log[k].message == Given(PatternMessage(coords[j]))
      && run.repo.log[k].authorDate == date && run.repo.log[k].commitDate == date
      && run.repo.log[k].snapshot == Stamp(date, coords[j].week, coords[j].day)
  {
    ScheduleLog(repo, coords, s, clock, transport);
    BatchEntry(coords, 0, Processed(coords, s), s, clock, j, t);
  }

  /** Progress: one event per processed cell when a callback is given (none
      otherwise), event `j` numbered `j + 1` out of `|coords|` and naming
      cell `j`; a run the callback lets finish ends on `current == total`. */
  lemma ScheduleEvents(repo: Repo, coords: seq<Coord>, s: Settings, clock: nat -> int, transport: Option<string>)
    ensures var run := CreatePatternCommits(repo, coords, s, clock, transport);
      && (s.callback.None? ==> run.events == [])
      && (s.callback.Some? ==> |run.events| == Processed(coords, s))
      && (forall j | 0 <= j < |run.events| ::
            && run.events[j].current == j + 1 && run.events[j].total == |coords|
            && run.events[j].week == coords[j].week && run.events[j].day == coords[j].day
            && run.events[j].ch == coords[j].ch)
      && (s.callback.Some? && (run.error.None? || run.error.value.PushFailed?) && |coords| > 0 ==>
            run.events[|run.events| - 1].current == run.events[|run.events| - 1].total)
  {
    CommitLoopEffect(repo, coords, 0, s, clock);
  }

  /** The callback raising ends the run with its own exception and without a
      push, exactly when some event makes it raise; the commits of the cells
      up to that event stay in the log. */
  lemma ScheduleCancelled(repo: Repo, coords: seq<Coord>, s: Settings, clock: nat -> int, transport: Option<string>)
    ensures var run := CreatePatternCommits(repo, coords, s, clock, transport);
      && ((run.error.Some? && run.error.value.Raised?) <==>
          (s.callback.Some? && FirstRaise(coords, s.callback.value, 0) < |coords|))
      && (s.callback.Some? && FirstRaise(coords, s.callback.value, 0) < |coords| ==>
            var k := FirstRaise(coords, s.callback.value, 0);
            && Some(run.error.value.message) == s.callback.value(EventAt(coords, k))
            && (forall j | 0 <= j < k :: s.callback.value(EventAt(coords, j)) == None)
            && |run.repo.log| == |repo.log| + (k + 1) * Repetitions(s.intensity)
            && run.repo.pushes == repo.pushes)
  {
    CommitLoopEffect(repo, coords, 0, s, clock);
    BatchesLength(coords, 0, Processed(coords, s), s, clock);
  }

  /** Branch selection and push: with HEAD detached, `main` is created if
      absent and checked out; with HEAD on a branch while no branch exists
      (HEAD unborn), creating `main` fails, which is a push failure with
      nothing changed; otherwise the checked-out branch is used. That branch
      is force-pushed to the same branch on `origin`. A missing `origin` or a
      transport error ends in a push failure and no push is recorded. The log
      and remotes are never touched. */
  lemma PublishRule(repo: Repo, transport: Option<string>)
    ensures var (r, error) := Publish(repo, transport);
      var unborn := repo.head.OnBranch? && repo.heads == {};
      var branch := if repo.head.Detached? then DefaultBranch else repo.head.branch;
      && r.log == repo.log && r.remotes == repo.remotes
      && (Origin !in repo.remotes ==> r == repo && error == Some(PushFailed(MissingOrigin)))
      && (Origin in repo.remotes && unborn ==> r == repo && error == Some(PushFailed(UnbornHead)))
      && (Origin in repo.remotes && !unborn ==>
            && r.head == OnBranch(branch)
            && r.heads == (if repo.head.Detached? then repo.heads + {DefaultBranch} else repo.heads)
            && (transport.None? ==>
                  error == None && r.pushes == repo.pushes + [Push(repo.remotes[Origin], branch, branch, true)])
            && (transport.Some? ==>
                  error == Some(PushFailed(Transport(transport.value))) && r.pushes == repo.pushes))
  {
  }

  /** A run pushes at most once, and only when the callback let every cell through. */
  lemma PushOnlyAfterAllCells(repo: Repo, coords: seq<Coord>, s: Settings, clock: nat -> int, transport: Option<string>)
    ensures var run := CreatePatternCommits(repo, coords, s, clock, transport);
      && |repo.pushes| <= |run.repo.pushes| <= |repo.pushes| + 1
      && (|run.repo.pushes| > |repo.pushes| ==> Processed(coords, s) == |coords| && run.error == None)
  {
    CommitLoopEffect(repo, coords, 0, s, clock);
  }

  /** On a repository just created by `InitializeRepo`, a run that commits at
      least once and is not cancelled pushes the branch the new repository's
      HEAD named, not `main`. */
  lemma FreshRepositoryPushesInitialBranch(
    url: string, initialBranch: string, coords: seq<Coord>, s: Settings, clock: nat -> int)
    requires s.intensity > 0 && Processed(coords, s) > 0
    requires RaisedFrom(coords, 0, s) == None
    ensures var run := CreatePatternCommits(InitializeRepo(None, url, initialBranch), coords, s, clock, None);
      && run.error == None
      && run.repo.pushes == [Push(url, initialBranch, initialBranch, true)]
  {
    var repo := InitializeRepo(None, url, initialBranch);
    CommitLoopEffect(repo, coords, 0, s, clock);
    var loop := CommitLoop(repo, coords, 0, s, clock);
    BatchesLength(coords, 0, Processed(coords, s), s, clock);
    assert |loop.repo.log| > 0;
    HeadsGrow(repo, coords, 0, s, clock);
  }

  /** On a repository just created by `InitializeRepo`, a run that is not
      cancelled but commits nothing (no cells, or an intensity of 0 or less)
      leaves HEAD unborn, so creating `main` fails: the run ends in a push
      failure and pushes nothing. */
  lemma FreshRepositoryWithoutCommitsFailsToPush(
    url: string, initialBranch: string, coords: seq<Coord>, s: Settings, clock: nat -> int, transport: Option<string>)
    requires s.intensity <= 0 || coords == []
    requires RaisedFrom(coords, 0, s) == None
    ensures var run := CreatePatternCommits(InitializeRepo(None, url, initialBranch), coords, s, clock, transport);
      && run.error == Some(PushFailed(UnbornHead))
      && run.repo.pushes == [] && run.repo.log == []
  {
    var repo := InitializeRepo(None, url, initialBranch);
    CommitLoopEffect(repo, coords, 0, s, clock);
    BatchesLength(coords, 0, Processed(coords, s), s, clock);
    HeadsGrow(repo, coords, 0, s, clock);
  }

  /** Committing on a branch brings the branch into existence; a loop that
      commits nothing leaves the branches as they were. */
  lemma {:induction false} HeadsGrow(repo: Repo, coords: seq<Coord>, i: nat, s: Settings, clock: nat -> int)
    requires i <= |coords|
    ensures var r := CommitLoop(repo, coords, i, s, clock);
      && repo.heads <= r.repo.heads
      && (repo.head.OnBranch? && |r.repo.log| > |repo.log| ==> repo.head.branch in r.repo.heads)
      && (|r.repo.log| == |repo.log| ==> r.repo.heads == repo.heads)
    decreases |coords| - i
  {
    if i < |coords| {
      var c := coords[i];
      var marked := MarkCommit(repo, c.week, c.day, s.intensity, Some(PatternMessage(c)),
                               s.authorName, s.authorEmail, clock(i));
      HeadsGrow(marked, coords, i + 1, s, clock);
      LoopGrows(marked, coords, i + 1, s, clock);
    }
  }

  /** The loop never removes commits. */
  lemma {:induction false} LoopGrows(repo: Repo, coords: seq<Coord>, i: nat, s: Settings, clock: nat -> int)
    requires i <= |coords|
    ensures |repo.log| <= |CommitLoop(repo, coords, i, s, clock).repo.log|
    decreases |coords| - i
  {
    if i < |coords| {
      var c := coords[i];
      var marked := MarkCommit(repo, c.week, c.day, s.intensity, Some(PatternMessage(c)),
                               s.authorName, s.authorEmail, clock(i));
      LoopGrows(marked, coords, i + 1, s, clock);
    }
  }

  /** The clock never goes backwards while the cells are committed. */
  ghost predicate ForwardClock(clock: nat -> int)
  {
    forall a: nat, b: nat | a <= b :: clock(a) <= clock(b)
  }

  /** With a clock that does not go backwards during the run, commit dates
      follow the order of the cells: strictly increasing from one cell to the
      next. */
  lemma ForwardClockChronological(coords: seq<Coord>, s: Settings, clock: nat -> int, i: nat, j: nat)
    requires StrictlyOrdered(coords)
    requires forall k | 0 <= k < |coords| :: coords[k].day < 7
    requires ForwardClock(clock)
    requires i < j < |coords|
    ensures PatternCommit(coords, i, s, clock).authorDate < PatternCommit(coords, j, s, clock).authorDate
  {
    DateMonotonic(clock(i), coords[i], coords[j]);
    assert clock(i) <= clock(j);
  }

  /** End to end: when the clock does not go backwards, the commits of an
      earlier cell of a text's pattern are dated strictly before those of a
      later cell (the `intensity` commits of one cell share its date). */
  lemma TextCommitsChronological(font: Font, text: string, s: Settings, clock: nat -> int, i: nat, j: nat)
    requires ForwardClock(clock)
    requires i < j < |TextToPattern(font, text)|
    ensures PatternCommit(TextToPattern(font, text), i, s, clock).authorDate
            < PatternCommit(TextToPattern(font, text), j, s, clock).authorDate
  {
    var coords := TextToPattern(font, text);
    PatternOrdered(font, text);
    PatternBounds(font, text);
    ForwardClockChronological(coords, s, clock, i, j);
  }
}
