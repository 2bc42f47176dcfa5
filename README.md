# Git simulator engine, modelled in Dafny

This project models the in-memory version-control engine of a small Git simulator: the staging
area, commits and their parent-linked history, repositories and the repository registry, pull
requests and their FIFO queue, and the `init`, `status` and `log` commands. Each source file is
one module: `Staging`, `Commits`, `Repositories`, `PullRequests` and `Commands`. Small support
modules hold `Option`/`Result` and Python truthiness (`Wrappers`), decimal rendering, parsing and
splitting (`Text`), timestamps (`Time`), and JSON values with their field readers (`Json`).

Objects whose fields the program updates in place are classes: `StagingArea`, `CommitHistory`,
`Repository`, `RepositoryManager`, `PullRequest`, `PullRequestQueue` and the command `Simulator`.
Their methods state the whole new state. Commits and the persisted forms of repositories and pull
requests are datatypes. Encoding and decoding are pure functions with round-trip lemmas.

Some parts of the environment become parameters:
- SHA-1 is a function `string -> string` passed to `Repository.Commit`.
- Each reading of `datetime.now()` is a `Timestamp` parameter.
- What the file system says about a path (missing, or its checksum, size and modification time)
  is a `Probe` value.

A `Timestamp` is an opaque tick count. `isoformat` is modelled as its decimal rendering and
`fromisoformat` as the parse of that rendering, so their round trip is proved rather than
assumed.

## Model

| member | source | states |
|---|---|---|
| Staging.StagingArea.constructor | proyecto1/staging.py:6-7 | a new staging area holds no files |
| Staging.StagingArea.AddFile | proyecto1/staging.py:9-29 | a missing file gives `FileNotFound(filename)` and leaves `files` unchanged; otherwise exactly one entry is appended at the end, holding the filename, the status (default `'A'`), the checksum, the size and the modification time, and earlier entries are untouched |
| Staging.StagingArea.RemoveFile | proyecto1/staging.py:31-37 | removes only the first entry with that filename, keeping the others in order; with no match, `files` is unchanged and the not-found outcome is returned |
| Staging.Filenames | proyecto1/staging.py:39-41 | `get_files` has one name per entry, in insertion order, with duplicates kept |
| Staging.StagingArea.GetFiles | proyecto1/staging.py:39-41 | one name per staged entry, in staging order: the name at each position is that entry's filename |
| Staging.FilenamesAppend | proyecto1/staging.py:39-41 | staging one more file extends `get_files` by exactly that name at the end |
| Staging.StagingArea.Clear | proyecto1/staging.py:43-45 | afterwards `files` is empty |
| Staging.StagingArea.Status | proyecto1/staging.py:47-55 | the "nothing staged" outcome exactly when `files` is empty; otherwise one `status: filename` entry per staged file, in order |
| Staging.Entries | proyecto1/staging.py:53-54 | one listing line per staged file, in `files` order, with that file's status and name |
| Commits.ToDict | proyecto1/commit.py:20-29 | the dict has exactly the keys hash, date, author_email, message, parent_hash, files and branch, and `files` is the list of file names |
| Time.IsoRoundTrip | proyecto1/commit.py:35 | `fromisoformat(isoformat(t)) == t` |
| Json.StringsRoundTrip | proyecto1/commit.py:39 | a list of strings written to JSON reads back as the same list |
| Commits.FromDictReadsEveryKey | proyecto1/commit.py:31-41 | a non-dict fails, and a dict without `hash` fails with that key; a dict that decodes holds every key `to_dict` writes, and the commit's hash, e-mail, message, parent hash (None for null), files and branch are the values under those keys |
| Json.StringsOfInverse | proyecto1/commit.py:39 | a list that reads as strings is the list those strings are written back to |
| Commits.CommitRoundTrip | proyecto1/commit.py:20-41 | `from_dict(to_dict(c))` gives back every field of `c` |
| Commits.CommitHistory.constructor | proyecto1/commit.py:45-46 | a new history has no head |
| Commits.CommitHistory.AddCommit | proyecto1/commit.py:48-50 | the commit's parent hash becomes the previous head's hash, or none when there was no head, and that commit becomes the head |
| Commits.AddedCommitLeadsBack | proyecto1/commit.py:48-50 | after `add_commit`, the history from the new head continues with the previous head, once that head is stored under its hash |
| Commits.CommitHistory.GetHistory | proyecto1/commit.py:52-62 | with the commit store passed in explicitly, the result is the walk of at most `max_commits` rounds (default 10) from the head, following parent hashes through the store |
| Commits.Walk | proyecto1/commit.py:52-62 | what the history loop appends in its first `rounds` rounds: at most `rounds` commits, none exactly when there is no start or no round, the start first and each later commit the stored parent of the one before |
| Commits.WalkPrefix | proyecto1/commit.py:57-60 | a history with fewer rounds is a prefix of one with more |
| Commits.WalkStops | proyecto1/commit.py:57-59 | a history shorter than its rounds ends at a commit with no stored parent: the loop stops only at a missing or empty parent hash, or one that is not a key of the store |
| Commits.HistoryAsWritten | proyecto1/commit.py:52-62 | as written, `get_history` raises exactly when there is a head with a non-empty parent hash and at least one round; otherwise it returns no commit, or the head alone |
| Commits.HistoryAsWrittenRaises | proyecto1/commit.py:57-59 | as written, a head with a non-empty parent hash raises `AttributeError`; the corrected walk over a store holding the parent returns both commits |
| Commits.HistoryAsWrittenAgrees | proyecto1/commit.py:52-62 | wherever the written code returns normally, it returns what the corrected walk returns |
| Repositories.Repository.constructor | proyecto1/repository.py:9-16 | a new repository has branches `{'main': None}`, current branch `main`, no commits, no head and an empty staging area, and is valid: its head is stored, the current branch points at the head, and every parent hash names a stored commit |
| Repositories.Repository.AddFile | proyecto1/repository.py:18-19 | stages the file with the default status and returns its name; a missing file gives the staging area's `FileNotFound(filename)`, with staging unchanged |
| Repositories.Repository.Commit | proyecto1/repository.py:21-43 | with nothing staged, nothing changes. Otherwise there is a new commit: its hash is the SHA-1 of message, e-mail and time; its parent is the old head's hash; it holds the staged names in order and the current branch. It is stored under its hash, the current branch and the head point to it, and staging is emptied. Other branches and other commits are unchanged. A valid repository stays valid, and commits stay stored under their own hashes |
| Repositories.Encode | proyecto1/repository.py:48-56 | the dict has exactly the keys name, path, branches, current_branch, head and commits |
| Repositories.Repository.ToDict | proyecto1/repository.py:48-56 | a repository's dict has exactly those six keys |
| Json.MapRoundTrip | proyecto1/repository.py:63-64 | a dict whose values were encoded one by one decodes back to the same dict when each value does |
| Repositories.BranchesRoundTrip | proyecto1/repository.py:61 | the branches dict reads back as written, including branches that point to no commit |
| Repositories.CommitsRoundTrip | proyecto1/repository.py:63-64 | the commits dict, encoded commit by commit, decodes back to the same hash-to-commit map |
| Json.DecodeMapValues | proyecto1/repository.py:61-64 | a decoded dict has the raw dict's keys, each value the decoding of its raw value; a dict is rejected only for a value that does not decode |
| Repositories.DecodeReadsEveryKey | proyecto1/repository.py:58-66 | a non-dict fails, and a dict without `name` fails with that key; a dict that decodes holds all six keys, the name, path, current branch and head hash are the values under their keys, the branches and commits keep the keys of their dicts, and each commit is its dict decoded |
| Repositories.RecordRoundTrip | proyecto1/repository.py:48-66 | decoding a repository's dict gives back its name, path, branches, current branch, head hash and commits |
| Repositories.Repository.FromDict | proyecto1/repository.py:58-66 | a dict that does not decode gives the decoding error. Otherwise a fresh repository holds the decoded name, path, branches, current branch and commits, and an empty staging area. Its head is the commit stored under the persisted head hash. With commits under their own hashes the head is stored, and a consistent record (parents stored, the current branch and the head naming the same stored commit) gives a valid repository |
| Repositories.ReloadRestores | proyecto1/repository.py:48-66 | when the head is stored under its hash, `from_dict(to_dict(r))` restores every persisted field and the same head |
| Repositories.SnapshotValid | proyecto1/repository.py:48-66 | a valid repository with commits under their own hashes saves as a consistent record, which reloads valid |
| Repositories.DanglingHeadReloadsAsNone | proyecto1/repository.py:65 | a persisted head hash that names no stored commit reloads as no head |
| Repositories.DanglingHeadBreaksBranch | proyecto1/repository.py:61-65 | when the persisted head hash names no stored commit, the reloaded current branch still names that hash but no longer points at the head |
| Repositories.RepositoryManager.constructor | proyecto1/repository.py:69-70 | the registry starts empty |
| Repositories.RepositoryManager.CreateRepository | proyecto1/repository.py:72-75 | always appends a new repository at the end, even when the name is taken |
| Repositories.RepositoryManager.GetRepository | proyecto1/repository.py:77-81 | the first repository with that name, or null exactly when none has it |
| Repositories.Names | proyecto1/repository.py:83-84 | the names of all repositories, one each, in creation order |
| Repositories.RepositoryManager.ListRepositories | proyecto1/repository.py:83-84 | one name per registered repository, in creation order: the name at each position is that repository's name |
| Repositories.ListedIffFound | proyecto1/repository.py:77-84 | a name is listed exactly when looking it up finds a repository |
| Repositories.DecodeAll | proyecto1/repository.py:87 | decoding a list of repository dicts yields one record per dict |
| Repositories.DecodeAllExtends | proyecto1/repository.py:87 | a dict that decodes extends the records of the dicts before it |
| Repositories.DecodeAllFailsAt | proyecto1/repository.py:87 | the first dict that does not decode gives the error of the whole list |
| Repositories.DecodeAllPrefixError | proyecto1/repository.py:87 | a failure within a prefix of the list is the failure of the whole list |
| Repositories.LoadOne | proyecto1/repository.py:87 | rebuilding one dict either fails with the whole list's error or extends the decoded records by the record of a fresh repository with a fresh, empty staging area, valid when that record is consistent |
| Repositories.LoadNext | proyecto1/repository.py:87 | one step of the comprehension: either the whole list's error, or the repositories built so far plus a fresh one with a fresh staging area, every index still rebuilt from its record and no two sharing an object or a staging area |
| Repositories.LoadAll | proyecto1/repository.py:87 | every dict becomes, in order, a fresh repository restoring its record, with a fresh, empty staging area, valid when its record is consistent; no two share an object or a staging area. Otherwise the first decoding error is returned |
| Repositories.RepositoryManager.LoadRepositories | proyecto1/repository.py:86-87 | the registry is replaced by the repositories rebuilt from the dicts, in order, each as `from_dict` builds it: the recorded fields, a fresh, empty staging area, valid when its record is consistent; no two share an object or a staging area. When a dict does not decode, the error is returned and the registry is unchanged |
| PullRequests.PullRequest.constructor | proyecto1/pull_request.py:5-18 | a new pull request stores its six arguments. It is open, with the creation time, no reviewers, comments, commits or tags, and not merged |
| PullRequests.PullRequest.AddReviewer | proyecto1/pull_request.py:20-21 | appends the reviewer at the end and changes nothing else |
| PullRequests.PullRequest.AddComment | proyecto1/pull_request.py:23-24 | appends the comment at the end and changes nothing else |
| PullRequests.PullRequest.Approve | proyecto1/pull_request.py:26-27 | sets the status to approved from any status and changes nothing else |
| PullRequests.PullRequest.Reject | proyecto1/pull_request.py:29-30 | sets the status to rejected from any status and changes nothing else |
| PullRequests.PullRequest.Merge | proyecto1/pull_request.py:32-34 | sets the status to merged from any status and records the merge time, changing nothing else |
| PullRequests.PullRequest.AddTag | proyecto1/pull_request.py:36-37 | appends the tag at the end and changes nothing else |
| PullRequests.Encode | proyecto1/pull_request.py:39-54 | the dict has exactly the thirteen keys of `to_dict` |
| PullRequests.PullRequest.ToDict | proyecto1/pull_request.py:39-54 | a pull request's dict has exactly those thirteen keys |
| PullRequests.DecodeNeedsEveryKey | proyecto1/pull_request.py:56-73 | a non-dict fails, a dict without `id` fails with that key, and a dict that decodes holds all thirteen keys of `to_dict` |
| PullRequests.DecodeReadsEveryKey | proyecto1/pull_request.py:56-67 | in a dict that decodes, the id, title, description, author, branches and status are the strings under their keys |
| PullRequests.DecodeReadsLists | proyecto1/pull_request.py:68-73 | in a dict that decodes, the reviewers, comments, commits and tags are the strings of the lists under their keys |
| PullRequests.HeaderRoundTrip | proyecto1/pull_request.py:58-65 | the six constructor arguments read back from a written dict as written |
| PullRequests.RecordRoundTrip | proyecto1/pull_request.py:39-73 | `from_dict(to_dict(pr))` restores every field, the merge time included |
| PullRequests.PullRequest.FromDict | proyecto1/pull_request.py:56-73 | a dict that does not decode gives the decoding error; otherwise a fresh pull request holds exactly the decoded fields |
| PullRequests.PullRequestQueue.constructor | proyecto1/pull_request.py:77-79 | an empty queue whose next id is 1; it is valid: every queued id was handed out below the counter, and no two queued ids are equal |
| PullRequests.PullRequestQueue.CreatePr | proyecto1/pull_request.py:81-92 | the new, open pull request gets id `PR-<next_id>` and is enqueued at the tail, and `next_id` grows by exactly 1. A valid queue stays valid, so the new id is not already queued |
| PullRequests.IdFor | proyecto1/pull_request.py:83 | an id is `PR-` followed by one or more decimal digits |
| PullRequests.IdsDistinct | proyecto1/pull_request.py:83 | different counter values give different ids |
| PullRequests.PullRequestQueue.GetNextPr | proyecto1/pull_request.py:94-97 | the head of the queue, or null exactly when the queue is empty |
| PullRequests.PullRequestQueue.ProcessNextPr | proyecto1/pull_request.py:99-102 | removes and returns the head; an empty queue gives null and stays empty. A valid queue stays valid |
| PullRequests.FifoOrder | proyecto1/pull_request.py:81-102 | three pull requests created in a row are processed as PR-1, PR-2, PR-3, leaving the queue empty |
| PullRequests.PullRequestQueue.GetPrById | proyecto1/pull_request.py:104-108 | the first pull request with that id, or null exactly when none has it |
| PullRequests.WithStatus | proyecto1/pull_request.py:112 | the pull requests with that status and no others, in queue order, each as many times as it is queued |
| PullRequests.PullRequestQueue.ListPrs | proyecto1/pull_request.py:110-113 | with a non-empty status, exactly the pull requests having it, in queue order and each as many times as it is queued; with none or an empty one, the whole queue |
| PullRequests.SubsequenceRefl | proyecto1/pull_request.py:113 | the copy of the whole queue keeps the queue's order |
| PullRequests.PullRequestQueue.ClearQueue | proyecto1/pull_request.py:115-116 | the queue becomes empty and valid, and the counter is kept |
| PullRequests.IdSuffix | proyecto1/pull_request.py:128 | an id without `-` raises `IndexError` |
| PullRequests.SuffixOfCreatedId | proyecto1/pull_request.py:128 | `int(id.split('-')[1])` of an id `create_pr` made is its counter |
| Text.SplitAround | proyecto1/pull_request.py:128 | splitting text with one separator and none in either part gives the two parts |
| Text.ParseRendered | proyecto1/pull_request.py:128 | `int(str(n)) == n` |
| Text.RenderInjective | proyecto1/pull_request.py:83 | different numbers have different decimal renderings |
| PullRequests.PullRequestQueue.LoadDecoded | proyecto1/pull_request.py:126-129 | the queue is replaced by the loaded list. When it is non-empty, `next_id` becomes the last id's number plus one, or the error `int(...)` or the index raises is returned with `next_id` unchanged. An empty list leaves `next_id` unchanged |
| PullRequests.ReloadReissuesId | proyecto1/pull_request.py:126-129 | as written, reloading `[PR-3, PR-2]` sets `next_id` to 3, and the next pull request created is a second PR-3 |
| PullRequests.ReloadAfterDrainReissuesId | proyecto1/pull_request.py:77-129 | as written, a queue drained by processing saves as an empty list, and a new queue loading it hands out PR-1 a second time |
| PullRequests.NextAfter | proyecto1/pull_request.py:126-129 | the corrected counter after a reload: at least the starting value and above every loaded id's number; an error only for a loaded id without a number |
| PullRequests.PullRequestQueue.LoadPastEveryId | proyecto1/pull_request.py:126-129 | the corrected reload: the queue becomes the loaded list, and the counter moves past the saved counter and past every loaded number, never back; an id without a number is an error with the counter kept. Loaded ids that `create_pr` made, none twice, leave a valid queue |
| Commands.Simulator.Init | proyecto1/commands.py:13-23 | with no argument, the usage outcome and no change. A taken name gives the "already exists" outcome, leaving the registry and the current repository unchanged. Otherwise a fresh repository is created at `./<name>`, appended to the registry and made current, with branches `{'main': None}`, current branch `main` and a fresh, empty staging area. Unique names stay unique |
| Commands.Simulator.Status | proyecto1/commands.py:26-39 | no repository selected, or the current branch with every staged entry, in staging order |
| Commands.Simulator.Log | proyecto1/commands.py:42-56 | no repository selected; no commits; or the commits visited from the head, newest first, no commit twice, running until a commit whose parent is not stored or was already shown |
| Commands.Trail | proyecto1/commands.py:52-54 | the guarded walk: empty exactly when there is no start, the start first, each later commit the stored parent of the one before |
| Commands.TrailStops | proyecto1/commands.py:52-54 | the guarded walk ends at a commit whose parent is not stored, or was shown before, or is in the walk: it runs up to the first commit that would come round again |
| Commands.HistoryFrom | proyecto1/commands.py:50-56 | the log from the head: empty exactly when there is no head, the head first, each later commit the stored parent of the one before, no commit twice, and the last commit's parent is not stored or is already in the log |
| Commands.TrailIsLoopPrefix | proyecto1/commands.py:52-54 | up to its length, the guarded log is exactly what the source's loop appends |
| Commands.LoopEndsWithTrail | proyecto1/commands.py:52-54 | when the guarded log ends at a commit with no stored parent, the source's loop ends there too, with the same log |
| Commands.TrailNeverRevisits | proyecto1/commands.py:52-54 | the guarded log never shows a commit twice, nor one already shown |
| Commands.TrailBounded | proyecto1/commands.py:52-54 | the guarded log has at most one commit more than the store has commits not yet shown |
| Commands.CycleNeverEnds | proyecto1/commands.py:52-54 | once the loop comes back to a commit it stood on, it stands on a commit after every later round: it never stops |
| Commands.TrailIsWalk | proyecto1/commands.py:52-54 | from a commit every shown one leads to, when the loop stops within `n` rounds the guard never fires and the guarded walk is the loop's whole log |
| Commands.LogMatchesLoopWhenItEnds | proyecto1/commands.py:50-56 | whenever the source's loop ends, `log` shows exactly what it shows |
| Commands.LogLoopNeverEndsOnCycle | proyecto1/commands.py:52-54 | as written, a commit that is its own parent makes the loop run for ever; the guarded log shows it once |

## Left out

- `proyecto1/main.py` is not part of this model: the interactive loop, configuration, saving and loading `data/repos.json`, error printing and command dispatch are I/O and plumbing. The `Simulator` class keeps only the two fields the commands use.
- The abstract `Command` base class and its `enabled` flag carry no behaviour and are not modelled.
- Real file-system access in `add_file` (existence check, reading the bytes, size, modification time) is the `Probe` parameter. The SHA-1 of the file's bytes is part of what the probe returns.
- SHA-1 in `Repository.commit` is an arbitrary function parameter. Two different inputs that hash alike overwrite the same `commits` entry, exactly as the map update states.
- `datetime.now()` is a parameter at each call. `Repository.commit` reads the clock twice, once for the hash and once for the date, and these are two parameters.
- The ISO-8601 text format is not modelled. A timestamp is a tick count and its text is the decimal rendering, so only the round-trip behaviour is kept.
- Repositories.Repository.Commit: the hash input renders the time as `isoformat` does, while the source uses `str(datetime.now())`, which puts a space instead of `T` between date and time. SHA-1 is an arbitrary parameter here, so no stated property depends on that text.
- JSON text, file reading and writing (`save_to_file`, `load_from_file`'s `open`/`json.load` and its swallowed `FileNotFoundError`) are left out. Decoding starts from a JSON value, and `load_from_file` starts from the already-decoded pull requests.
- `RepositoryManager.to_dict` and `PullRequestQueue.save_to_file` are not modelled as operations; they apply the modelled per-item `to_dict` to every element of the list.
- Commits.FromDict, Repositories.Decode, PullRequests.Decode: JSON numbers and booleans are not values of the `Json` datatype, so they cannot be decoded at all. Among the values it does have, one of the wrong kind (a list where a string is expected, say) is rejected with `WrongType`, whereas Python would store it unchecked and fail later or never.
- Repositories.Decode: a commit dict inside `commits` that does not decode makes the whole dict fail with `WrongType("commits")`, where the source raises that commit's own `KeyError` or `ValueError`. Which commit fails first depends on dict order, which the model does not keep, so the source's own error is not kept either.
- PullRequests.IdSuffix: accepts only ASCII decimal digits, while Python's `int()` also accepts surrounding whitespace, a sign, underscores between digits and non-ASCII digits.
- Commits.CommitHistory.AddCommit: returns the re-parented commit as a new value; the source mutates the caller's commit object in place, and that aliasing is not modelled.
- Dictionary iteration order is not modelled; dicts are maps.
- Message texts, `Commit.__str__` and the `[:6]` hash truncation are replaced by outcome datatypes carrying the same information.
- `last_modified` is a `real`; floating-point rounding is not modelled.
- Commits.CommitHistory.GetHistory: takes the commit store as a parameter, because the source reads a `self.commits` that does not exist (see Findings).
- Commands.Simulator.Log: stops before a commit it has already shown; the source has no such guard (see Findings). Whenever the source's loop ends, the two logs are equal.
- PullRequests.PullRequestQueue.LoadPastEveryId: takes the saved counter as a parameter. The source does not save `next_id`, so the corrected reload needs it written beside the queue (see Findings).

## Findings

| source | as written | input that shows it | evidently intended | confidence | as-written member | corrected member |
|---|---|---|---|---|---|---|
| proyecto1/commit.py:59 | `get_history` looks up parents in `self.commits`, which `CommitHistory.__init__` never sets | a head whose `parent_hash` is a non-empty hash, with `max_commits` of 2: the head is appended, then `AttributeError` is raised | follow parent hashes through the commit store, as `log` does | not executed | Commits.HistoryAsWrittenRaises | Commits.CommitHistory.GetHistory |
| proyecto1/commands.py:52-54 | the `log` loop follows parent hashes with no guard against a commit already shown | a loaded repository whose only commit, under hash `h`, has `parent_hash` `h`: `while current:` never ends | stop before a commit already shown, so the walk shows each stored commit at most once | not executed | Commands.LogLoopNeverEndsOnCycle | Commands.Simulator.Log |
| proyecto1/pull_request.py:127-129 | `next_id` is recomputed from the last loaded id only | a queue file holding `[PR-3, PR-2]`, which `save_to_file` never writes itself (it saves in creation order), so a hand-edited or foreign file: after loading, `create_pr` hands out PR-3 while PR-3 is still queued | move the counter past every loaded id, never back | not executed | PullRequests.ReloadReissuesId | PullRequests.PullRequestQueue.LoadPastEveryId |
| proyecto1/pull_request.py:118-129 | `next_id` is not saved, and an empty saved queue leaves it at 1 | create PR-1, process it, save the empty queue, load it into a new queue: `create_pr` hands out PR-1 again | save the counter with the queue and never move it back on load | not executed | PullRequests.ReloadAfterDrainReissuesId | PullRequests.PullRequestQueue.LoadPastEveryId |
