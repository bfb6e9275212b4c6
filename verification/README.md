# Contribution-graph text drawing: verified model

This project models the core of a tool that draws text on a source-control
contribution calendar. The calendar is a grid of 7 weekday rows and 53 week
columns. The tool draws each character as a 7 x 5 glyph and leaves one blank
week between characters. It then backdates commits so that every lit glyph
cell becomes a day with commits.

Two parts are modelled.

- **The pattern compiler** (`pattern_calculator.py`). It computes the weeks a
  text needs and the character capacity. It validates the text. It compiles
  the text into the ordered list of calendar cells (`Coord`: week, weekday,
  upper-cased character, character position). It builds the 0/1 preview grid
  and the summary statistics. Module `PatternCalculator` holds the
  definitions. Module `PatternProofs` holds what is proved about them.
- **The commit scheduler and publisher** (`git_bot.py`). They work over an
  abstract repository record `Repo`. The record holds the commit log, the
  remotes by name, the branches, HEAD, the working and staged content of the
  data file, and the pushes made. Module `GitBot` holds the date law,
  repository set-up, `MarkCommit`, the commit loop, branch selection with the
  forced push, and the combined run `CreatePatternCommits`. Module
  `GitBotProofs` holds what is proved about them.

Module `Strings` models the Python string behaviour the code relies on. That
is `str.upper()` (ASCII letters only), `str.strip()` with Python's whitespace
set, and `str(n)` for non-negative integers. Module `Wrappers` holds `Option`.

Things the model takes as parameters:

- The glyph table (`FONTS` and `UNKNOWN_CHAR` in the unseen `fonts` module) is
  a `Font`: a map from characters to 7 x 5 bitmaps, plus the fallback bitmap.
- The wall clock is `clock: nat -> int`. It gives the day number that
  `datetime.now()` returns while cell `i` is being committed.
- A progress callback is a function from the event to `Option<string>`.
  `Some(m)` means the callback raised an exception with message `m`. The
  user interface stops a run this way, in `main.py:389-391`.
- The outcome of the network push is `transport: Option<string>`: the message
  of the exception `origin.push` raises, if any. `None` means it returned
  without raising.
- `InitializeRepo` takes the repository already in the target directory, if
  any. It also takes the branch name a new repository's HEAD refers to (git's
  configured initial branch).

Behaviour of the code that the model keeps:

- `calculate_date` reads the clock on every call, once per cell. The model
  therefore reads `clock(i)` for cell `i`. `DateLaw` and `DateMonotonic` state
  the date law under one clock reading. `ForwardClockChronological` and
  `TextCommitsChronological` hold for any clock that does not go backwards.
- A run is stopped by the progress callback raising an exception. The
  exception passes through unchanged and the push is skipped.
- The intensity is any integer. `range(intensity)` is empty for 0 or a
  negative value, so no commits are made in that case (`Repetitions`).
- The push-stage `try` also covers the `origin` lookup and the creation of
  `main`. A missing `origin` remote ends as a push failure (`MissingOrigin`).
  So does HEAD on a branch while the repository has no branch at all
  (`UnbornHead`), because `create_head('main')` has no commit to point the new
  branch at.

## Model

| member | source | states |
|---|---|---|
| PatternCalculator.MaxCharacters | pattern_calculator.py:22-24 | the capacity is the largest character count whose drawing (`n*6 - 1` weeks) fits in 53 weeks, and one more character does not fit |
| PatternProofs.FitsIffShortEnough | pattern_calculator.py:32-36 | a text needs at most 53 weeks exactly when it has at most `MaxCharacters()` (= 9) characters |
| PatternProofs.RequiredWeeksIncreasing | pattern_calculator.py:15-19 | the weeks needed grow strictly with the length of the text |
| PatternCalculator.VerdictMessage | pattern_calculator.py:30-38 | the message is "OK" exactly for an accepted text and "Please enter some text" exactly for an empty one; a too-long message opens with "Text too long! Max " followed by the capacity's decimal digits and a space, so messages of different kinds differ |
| PatternCalculator.ValidateText | pattern_calculator.py:27-38 | accepted exactly when the text is not empty or all whitespace and has at most 9 characters; "empty" exactly for all-whitespace (incl. empty) text; a too-long verdict carries the required weeks (> 53), the capacity 9 and the 53-week limit |
| Strings.StripEmptyIffAllSpace | pattern_calculator.py:29 | `text.strip()` is empty exactly when every character is Python whitespace |
| Strings.TrimStart | pattern_calculator.py:29 | left strip: the result is a suffix of the input, everything cut off is whitespace, and it does not start with whitespace |
| Strings.TrimEnd | pattern_calculator.py:29 | right strip: the result is a prefix of the input, everything cut off is whitespace, and it does not end with whitespace |
| PatternCalculator.TextToPatternLoop | pattern_calculator.py:41-71 | the three nested loops with the running week offset (`+= 6` per character) build exactly the cell list `TextToPattern` defines |
| PatternProofs.PatternCells | pattern_calculator.py:53-66 | a cell is in the pattern exactly when it is a lit cell of the glyph (fallback glyph for unknown characters) of the upper-cased character at its position, placed at week `index*6 + column`, weekday `row` |
| PatternProofs.PatternBounds | pattern_calculator.py:53-69 | every cell has weekday < 7, week within `index*6 .. index*6+4`, week < `RequiredWeeks(text)`, a position inside the text, and the upper-cased character of that position |
| PatternProofs.PatternOrdered | pattern_calculator.py:53-69 | cells come out in strictly increasing (week, day) order, so no calendar cell appears twice |
| PatternProofs.PatternSize | pattern_calculator.py:46-66 | the number of cells is the total number of lit cells of the glyphs of the upper-cased characters; empty text gives none |
| PatternProofs.SingleCharacterPattern | pattern_calculator.py:53-66 | one character yields exactly as many cells as its glyph has lit cells, all within weeks 0..4 and weekdays 0..6 |
| PatternProofs.CountOrderIrrelevant | pattern_calculator.py:57-60 | counting lit glyph cells column by column (the loop order) gives the same number as counting row by row |
| PatternProofs.PatternIgnoresCase | pattern_calculator.py:49 | compiling the upper-cased text gives the same cells as compiling the text |
| Strings.UpperTextIdempotent | pattern_calculator.py:49 | upper-casing twice is the same as upper-casing once |
| PatternProofs.PreviewShape | pattern_calculator.py:79-86 | the preview is empty for empty text, otherwise 7 rows of `RequiredWeeks(text)` cells |
| PatternProofs.MarkAllCells | pattern_calculator.py:88-92 | after marking a list of cells, a grid cell is 1 when some listed cell lies on it and keeps its old value otherwise |
| PatternProofs.PreviewCell | pattern_calculator.py:79-94 | a preview cell is 1 exactly when a pattern cell lies on it, which is exactly when that week falls in a glyph column (not a gap) and the glyph cell of the character there is lit; all other cells are 0 |
| PatternProofs.PatternStatsFacts | pattern_calculator.py:97-110 | the statistics give the text length, the number of pattern cells (= lit glyph cells), a week count equal to `RequiredWeeks(text)` (0 only for empty text, above every cell's week), "fits" exactly when that week count is at most 53, which is exactly when the text has at most 9 characters, and the constants 9 and 53 |
| GitBotProofs.DateLaw | git_bot.py:11-15 | cell (w, d) is dated `now - 365 + 7w + d + 1`, so (0, 0) is the day after the anchor; the cell can be read back from its date |
| GitBotProofs.DateMonotonic | git_bot.py:11-15 | under one clock reading, a cell earlier in (week, day) order gets a strictly earlier date |
| GitBot.InitializeRepo | git_bot.py:18-46 | afterwards `origin` is bound to the URL; an existing repository keeps its other remotes, log and files; a new one has `origin` as its only remote, an empty log and the empty JSON object as data file |
| GitBotProofs.InitializeIdempotent | git_bot.py:29-39 | setting up an already set-up repository with the same URL changes nothing |
| GitBot.CommitRepeatedly | git_bot.py:70-79 | `range(n)` commits of the same commit append exactly `max(n, 0)` copies of it; when at least one commit is made on a branch, that branch comes into existence; remotes, HEAD, pushes and the data file are unchanged |
| GitBot.MarkCommit | git_bot.py:49-79 | the data file (working and staged) becomes the cell's record; exactly `max(intensity, 0)` commits are appended, each with the cell's date as author and commit date, the given message or else the date-stamped default, and an explicit identity only when both name and e-mail are non-empty; HEAD's branch exists afterwards when a commit was made on it |
| GitBotProofs.CommitLoopEffect | git_bot.py:89-105 | the loop appends the commits of the processed cells in order, emits one event per processed cell when there is a callback, ends with the callback's exception if it raised, and leaves remotes, HEAD and pushes alone |
| GitBotProofs.ScheduleLog | git_bot.py:83-95 | a run keeps the old log and appends `intensity` commits per processed cell, cell by cell; intensity 0 appends none |
| GitBotProofs.ScheduledCommit | git_bot.py:89-95 | commit `t` of cell `j`'s batch carries the message "Pattern: {char} ({week},{day})" and the cell's date and record |
| GitBotProofs.ScheduleEvents | git_bot.py:97-105 | events only with a callback, one per processed cell, event `j` numbered `j + 1` of `|coords|` and naming cell `j`; a run the callback lets finish ends with `current == total` |
| GitBotProofs.ScheduleCancelled | git_bot.py:89-108 | the run ends with the callback's own exception exactly when some event makes it raise; then the log holds the commits of the cells up to that event (`(k+1)*intensity` new commits) and no push happened |
| GitBotProofs.PublishRule | git_bot.py:107-124 | with HEAD detached, `main` is created if absent and checked out; with HEAD on a branch while no branch exists (HEAD unborn), creating `main` fails and the run ends in a push failure with nothing changed; otherwise the active branch is used; that branch is force-pushed as `branch:branch` to `origin`'s URL; a missing `origin` or a transport error becomes a push failure with no push recorded |
| GitBotProofs.PushOnlyAfterAllCells | git_bot.py:89-124 | a run pushes at most once, and only after every cell was committed and without error |
| GitBotProofs.FreshRepositoryPushesInitialBranch | git_bot.py:36-39 | on a newly initialised repository, a run that commits and is not cancelled pushes the branch HEAD was created on, to the given URL, and nothing else |
| GitBotProofs.FreshRepositoryWithoutCommitsFailsToPush | git_bot.py:107-124 | on a newly initialised repository, a run that is not cancelled but commits nothing (no cells, or intensity 0 or less) ends in a push failure, pushes nothing and leaves the log empty |
| GitBotProofs.TextCommitsChronological | git_bot.py:11-15 | with a clock that does not go backwards, the commits of an earlier cell of a text's pattern are dated strictly before those of a later cell; the `intensity` commits of one cell share a date |
| GitBotProofs.ForwardClockChronological | git_bot.py:89-95 | with a clock that does not go backwards and cells in (week, day) order, the commit for an earlier cell is dated strictly earlier |
| Strings.NatToStringRoundTrip | git_bot.py:94 | the decimal rendering of a week or day number in a commit message reads back as that number |

## Left out

- The graphical front-end in `main.py` is not modelled: the Tkinter widgets, canvas drawing, logging, the background thread and the `is_running` flag. Only the way it stops a run is kept: its progress callback raises.
- GitPython and the file system are replaced by the `Repo` record: creating the target directory, `.git` detection, index and commit objects, and parent links.
- The model does not fail while writing the data file, staging it or creating a commit. These steps always succeed; their I/O failures are outside the model.
- JSON serialisation and ISO-8601 rendering are left out. Dates are whole day numbers, so the time of day `datetime.now()` carries is dropped. The default message of `mark_commit` is the record `DateStamped(date, week, day)`, not a formatted string.
- `datetime.now()` is not read; the `clock` parameter stands for it.
- GitBot.Progress: the `percentage` field (`round(((i+1)/total)*100)`) is not modelled, because it is floating point with Python's half-to-even rounding.
- The glyph bitmaps of the `fonts` module are not part of this model; a `Font` parameter stands for them.
- Strings.UpperText: maps only `a`-`z`. Python's `str.upper()` also maps non-ASCII letters, and can change the length of a string (`'ß'` becomes `"SS"`). The model's upper-casing always keeps the length. Under it, the bounds guard in the preview (pattern_calculator.py:91) is never needed.
- The checkout of `main` is recorded only as HEAD naming `main`; the working tree is not changed.
- The network transport of the push is not modelled; the `transport` parameter gives its outcome. A rejected ref that `origin.push` reports without raising, and pushing a branch that exists by name but has no commit (HEAD on a branch while other branches exist), are left to that parameter.
- Branches carry no commit: `heads` is a set of names and the log is every commit in the order it was made. So a `Push` does not record which commits it publishes. For example, with HEAD detached and `main` already present, the source checks out `main`'s old tip and pushes it without the commits just made; the model records only the push of `main`.
- Exceptions are modelled by their message only. The "Failed to push to remote: ..." text is the `PushFailed` error with its cause.
