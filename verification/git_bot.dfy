/**
 The commit scheduler and repository publisher, over an abstract repository.

 The version-control engine and the file system are replaced by the `Repo`
 record: the commit log, the named remotes, the branches and HEAD, the
 content of the working-tree data file and of its staged copy, and the pushes
 made so far. Dates are whole day numbers; the wall clock is a parameter.
 */
module GitBot {
  import opened Wrappers
  import opened Strings
  import opened PatternCalculator

  /** Name of the remote the tool publishes to. */
  const Origin := "origin"

  /** Branch used when HEAD is detached or no branch exists yet. */
  const DefaultBranch := "main"

  /** Days between "now" and the anchor the calendar is drawn from. */
  const DaysBack := 365

  datatype Identity = Identity(name: string, email: string)

  /** Content of the tracked data file: absent, the empty JSON object written
      at initialisation, or the record of the last marked cell. */
  datatype DataFile = Missing | EmptyObject | Stamp(date: int, week: int, day: int)

  /** A commit message: the caller's text, or the default one made of the
      ISO rendering of the date followed by "(week,day)". */
  datatype Message = Given(text: string) | DateStamped(date: int, week: int, day: int)

  /** A commit: message, author and commit dates, the identity used for both
      author and committer (`None`: the engine's configured default), and the
      data file content it records. */
  datatype Commit = Commit(
    message: Message,
    authorDate: int,
    commitDate: int,
    signature: Option<Identity>,
    snapshot: DataFile)

  datatype Head = OnBranch(branch: string) | Detached

  /** A push of refspec `source:destination` to the remote at `url`. */
  datatype Push = Push(url: string, source: string, destination: string, force: bool)

  datatype Repo = Repo(
    log: seq<Commit>,
    remotes: map<string, string>,
    heads: set<string>,
    head: Head,
    workingFile: DataFile,
    stagedFile: DataFile,
    pushes: seq<Push>)

  /** Python truthiness of an optional string: present and non-empty. */
  predicate Truthy(s: Option<string>)
  {
    s.Some? && s.value != ""
  }

  /** The identity for author and committer: explicit only when both name and
      e-mail are given and non-empty, otherwise the engine's default. */
  function Signature(authorName: Option<string>, authorEmail: Option<string>): (r: Option<Identity>)
    ensures r.Some? <==> Truthy(authorName) && Truthy(authorEmail)
    ensures r.Some? ==> r.value.name == authorName.value && r.value.email == authorEmail.value
  {
    if Truthy(authorName) && Truthy(authorEmail) then Some(Identity(authorName.value, authorEmail.value)) else None
  }

  /** Day number of calendar cell (`weeks`, `days`) when the clock reads `now`:
      one year back, then the given weeks, then `days + 1` days. */
  function CalculateDate(now: int, weeks: int, days: int): int
  {
    (now - DaysBack) + 7 * weeks + (days + 1)
  }

  /** Sets up the repository at the target directory. `existing` is the
      repository already there (`None` when the directory holds none) and
      `initialBranch` the branch name a new repository's HEAD refers to. */
  function InitializeRepo(existing: Option<Repo>, url: string, initialBranch: string): (r: Repo)
    ensures Origin in r.remotes && r.remotes[Origin] == url
    ensures existing.Some? ==> r.remotes.Keys == existing.value.remotes.Keys + {Origin}
    ensures existing.Some? ==>
              forall name | name in r.remotes && name != Origin :: r.remotes[name] == existing.value.remotes[name]
    ensures existing.Some? ==> r.(remotes := existing.value.remotes) == existing.value
    ensures existing.None? ==> r.remotes.Keys == {Origin}
    ensures existing.None? ==> r.log == [] && r.pushes == [] && r.workingFile == EmptyObject
  {
    match existing
    case Some(repo) =>
      var kept := if Origin in repo.remotes then repo.remotes - {Origin} else repo.remotes;
      repo.(remotes := kept[Origin := url])
    case None =>
      Repo([], map[Origin := url], {}, OnBranch(initialBranch), EmptyObject, Missing, [])
  }

  /** Records one commit of the staged content on top of HEAD; on a branch,
      the branch comes into existence with its first commit. */
  function CommitOnce(repo: Repo, c: Commit): Repo
  {
    var heads := if repo.head.OnBranch? then repo.heads + {repo.head.branch} else repo.heads;
    repo.(log := repo.log + [c], heads := heads)
  }

  /** Number of passes of `for i in range(n)`. */
  function Repetitions(n: int): nat
  {
    if n < 0 then 0 else n
  }

  /** Commits `c` once per pass of `range(n)`. */
  function CommitRepeatedly(repo: Repo, c: Commit, n: int): (r: Repo)
    ensures r.log == repo.log + seq(Repetitions(n), _ => c)
    ensures r.remotes == repo.remotes && r.head == repo.head && r.pushes == repo.pushes
    ensures r.workingFile == repo.workingFile && r.stagedFile == repo.stagedFile
    ensures r.heads == if Repetitions(n) > 0 && repo.head.OnBranch? then repo.heads + {repo.head.branch} else repo.heads
    decreases n
  {
    if n <= 0 then repo else CommitRepeatedly(CommitOnce(repo, c), c, n - 1)
  }

  /** Writes the cell's record to the data file, stages it and commits it
      `intensity` times, all dated at the cell's date. */
  function MarkCommit(
    repo: Repo, week: int, day: int, intensity: int, message: Option<string>,
    authorName: Option<string>, authorEmail: Option<string>, now: int): (r: Repo)
    ensures |r.log| == |repo.log| + Repetitions(intensity)
    ensures r.log[..|repo.log|] == repo.log
    ensures forall k | |repo.log| <= k < |r.log| ::
              && r.log[k].authorDate == CalculateDate(now, week, day)
              && r.log[k].commitDate == CalculateDate(now, week, day)
              && r.log[k].snapshot == Stamp(CalculateDate(now, week, day), week, day)
              && r.log[k].message == (if Truthy(message) then Given(message.value)
                                      else DateStamped(CalculateDate(now, week, day), week, day))
              && r.log[k].signature == Signature(authorName, authorEmail)
    ensures r.workingFile == r.stagedFile == Stamp(CalculateDate(now, week, day), week, day)
    ensures r.remotes == repo.remotes && r.head == repo.head && r.pushes == repo.pushes
    ensures r.heads == if Repetitions(intensity) > 0 && repo.head.OnBranch? then repo.heads + {repo.head.branch} else repo.heads
  {
    var date := CalculateDate(now, week, day);
    var data := Stamp(date, week, day);
    var staged := repo.(workingFile := data, stagedFile := data);
    var text := if Truthy(message) then Given(message.value) else DateStamped(date, week, day);
    CommitRepeatedly(staged, Commit(text, date, date, Signature(authorName, authorEmail), data), intensity)
  }

  /** The event passed to the progress callback after a cell's commits. The
      percentage the source also reports is not modelled. */
  datatype Progress = Progress(current: nat, total: nat, week: nat, day: nat, ch: char)

  /** A progress callback; it returns `Some(message)` when it raises an
      exception carrying `message`, and `None` when it returns normally. */
  type Callback = Progress -> Option<string>

  /** What the caller passes besides the repository and the cells. */
  datatype Settings = Settings(
    intensity: int,
    callback: Option<Callback>,
    authorName: Option<string>,
    authorEmail: Option<string>)

  /** Why a push failed: no `origin` remote; `main` had to be created while
      HEAD names a branch without any commit, so there is nothing to point it
      at; or the transport's error message. */
  datatype PushFailure = MissingOrigin | UnbornHead | Transport(reason: string)

  /** How a run ends abnormally: the callback's own exception, passed through
      unchanged, or a "Failed to push to remote" error. */
  datatype RunError = Raised(message: string) | PushFailed(cause: PushFailure)

  /** State reached by the commit loop, the events it emitted and the
      exception the callback raised, if any. */
  datatype LoopResult = LoopResult(repo: Repo, events: seq<Progress>, raised: Option<string>)

  datatype Run = Run(repo: Repo, events: seq<Progress>, error: Option<RunError>)

  /** The commit message for a cell: "Pattern: {char} ({week},{day})". */
  function PatternMessage(c: Coord): string
  {
    "Pattern: " + [c.ch] + " (" + NatToString(c.week) + "," + NatToString(c.day) + ")"
  }

  /** The progress event after cell `i`. */
  function EventAt(coords: seq<Coord>, i: nat): Progress
    requires i < |coords|
  {
    Progress(i + 1, |coords|, coords[i].week, coords[i].day, coords[i].ch)
  }

  /** The loop over the cells from index `i` on; `clock(i)` is the day number
      the clock reads while cell `i` is being committed. */
  function CommitLoop(repo: Repo, coords: seq<Coord>, i: nat, s: Settings, clock: nat -> int): LoopResult
    requires i <= |coords|
    decreases |coords| - i
  {
    if i == |coords| then LoopResult(repo, [], None)
    else
      var c := coords[i];
      var marked := MarkCommit(repo, c.week, c.day, s.intensity, Some(PatternMessage(c)),
                               s.authorName, s.authorEmail, clock(i));
      match s.callback
      case None => CommitLoop(marked, coords, i + 1, s, clock)
      case Some(callback) =>
        var event := EventAt(coords, i);
        match callback(event)
        case Some(e) => LoopResult(marked, [event], Some(e))
        case None =>
          var rest := CommitLoop(marked, coords, i + 1, s, clock);
          rest.(events := [event] + rest.events)
  }

  /** Chooses the branch and force-pushes it to `origin`. `transport` is the
      message of the exception the push raises, if it raises one. */
  function Publish(repo: Repo, transport: Option<string>): (Repo, Option<RunError>)
  {
    if Origin !in repo.remotes then (repo, Some(PushFailed(MissingOrigin)))
    // attached with no branch at all: HEAD is unborn and `main` cannot be created
    else if repo.head.OnBranch? && repo.heads == {} then (repo, Some(PushFailed(UnbornHead)))
    else
      var url := repo.remotes[Origin];
      var (current, branch) :=
        if repo.head.Detached? then
          // the branch is created only when absent; adding it to the set is the same
          var heads := if DefaultBranch in repo.heads then repo.heads else repo.heads + {DefaultBranch};
          (repo.(heads := heads, head := OnBranch(DefaultBranch)), DefaultBranch)
        else (repo, repo.head.branch);
      match transport
      case Some(reason) => (current, Some(PushFailed(Transport(reason))))
      case None => (current.(pushes := current.pushes + [Push(url, branch, branch, true)]), None)
  }

  /** Commits every cell in order, reporting progress, then publishes; an
      exception from the callback ends the run before the push. */
  function CreatePatternCommits(
    repo: Repo, coords: seq<Coord>, s: Settings, clock: nat -> int, transport: Option<string>): Run
  {
    var loop := CommitLoop(repo, coords, 0, s, clock);
    match loop.raised
    case Some(e) => Run(loop.repo, loop.events, Some(Raised(e)))
    case None =>
      var (published, error) := Publish(loop.repo, transport);
      Run(published, loop.events, error)
  }
}
