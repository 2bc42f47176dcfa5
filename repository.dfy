/** Repositories and their registry (proyecto1/repository.py). */
module Repositories {
  import opened Wrappers
  import opened Time
  import opened Json
  import opened Commits
  import Staging

  /** What `commit` reports: nothing staged, or the new commit's hash and branch. */
  datatype CommitOutcome = NothingToCommit | Created(hash: string, branch: string)

  /** The persisted part of a repository, as `to_dict` writes it: `head` by hash only. */
  datatype RepoRecord = RepoRecord(
    name: string,
    path: string,
    branches: map<string, Option<string>>,
    currentBranch: string,
    headHash: Option<string>,
    commits: map<string, Commit>)

  const RepoKeys: set<string> := {"name", "path", "branches", "current_branch", "head", "commits"}

  function HashOf(head: Option<Commit>): Option<string>
  {
    if head.Some? then Some(head.value.hash) else None
  }

  /** `commits.get(h)`. */
  function Lookup(commits: map<string, Commit>, h: Option<string>): Option<Commit>
  {
    if h.Some? && h.value in commits then Some(commits[h.value]) else None
  }

  function EncodeBranches(branches: map<string, Option<string>>): Json
  {
    EncodeMap(branches, OptString)
  }

  function EncodeCommits(commits: map<string, Commit>): Json
  {
    EncodeMap(commits, Commits.ToDict)
  }

  function BranchTarget(j: Json): Result<Option<string>, DecodeError>
  {
    OptStringOf(j, "branches")
  }

  function Encode(rec: RepoRecord): (d: Json)
    ensures d.Obj? && d.fields.Keys == RepoKeys
  {
    Obj(map[
      "name" := Str(rec.name),
      "path" := Str(rec.path),
      "branches" := EncodeBranches(rec.branches),
      "current_branch" := Str(rec.currentBranch),
      "head" := OptString(rec.headHash),
      "commits" := EncodeCommits(rec.commits)])
  }

  function GetObject(data: Json, key: string): Result<map<string, Json>, DecodeError>
  {
    match Field(data, key)
    case Err(e) => Err(e)
    case Ok(Obj(m)) => Ok(m)
    case Ok(_) => Err(WrongType(key))
  }

  lemma BranchesRoundTrip(branches: map<string, Option<string>>)
    ensures DecodeMap(EncodeBranches(branches).fields, BranchTarget, "branches") == Ok(branches)
  {
    MapRoundTrip(branches, OptString, BranchTarget, "branches");
  }

  lemma CommitsRoundTrip(commits: map<string, Commit>)
    ensures DecodeMap(EncodeCommits(commits).fields, Commits.FromDict, "commits") == Ok(commits)
  {
    forall c: Commit
      ensures Commits.FromDict(Commits.ToDict(c)) == Ok(c)
    {
      CommitRoundTrip(c);
    }
    MapRoundTrip(commits, Commits.ToDict, Commits.FromDict, "commits");
  }

  /** The fields `from_dict` reads, in the order it reads them. */
  function Decode(data: Json): Result<RepoRecord, DecodeError>
  {
    match GetString(data, "name")
    case Err(e) => Err(e)
    case Ok(name) =>
    match GetString(data, "path")
    case Err(e) => Err(e)
    case Ok(path) =>
    match GetObject(data, "branches")
    case Err(e) => Err(e)
    case Ok(rawBranches) =>
    match DecodeMap(rawBranches, BranchTarget, "branches")
    case Err(e) => Err(e)
    case Ok(branches) =>
    match GetString(data, "current_branch")
    case Err(e) => Err(e)
    case Ok(current) =>
    match GetObject(data, "commits")
    case Err(e) => Err(e)
    case Ok(rawCommits) =>
    match DecodeMap(rawCommits, Commits.FromDict, "commits")
    case Err(e) => Err(e)
    case Ok(commits) =>
    match GetOptString(data, "head")
    case Err(e) => Err(e)
    case Ok(head) => Ok(RepoRecord(name, path, branches, current, head, commits))
  }

  /** `from_dict` needs a dict holding every key `to_dict` writes, checks `name` first, and takes
      each field from its key; the branches and commits keep the keys of their dicts, each commit
      being its dict decoded. */
  lemma DecodeReadsEveryKey(data: Json)
    ensures var r := Decode(data);
      && (!data.Obj? ==> r == Err(NotAnObject))
      && (data.Obj? && "name" !in data.fields ==> r == Err(MissingKey("name")))
      && (r.Ok? ==> data.Obj? && RepoKeys <= data.fields.Keys)
      && (r.Ok? ==>
        && data.fields["name"] == Str(r.value.name)
        && data.fields["path"] == Str(r.value.path)
        && data.fields["current_branch"] == Str(r.value.currentBranch)
        && data.fields["head"] == OptString(r.value.headHash)
        && data.fields["branches"].Obj? && data.fields["branches"].fields.Keys == r.value.branches.Keys
        && data.fields["commits"].Obj? && data.fields["commits"].fields.Keys == r.value.commits.Keys)
      && (r.Ok? ==> forall h :: h in r.value.commits ==>
        Commits.FromDict(data.fields["commits"].fields[h]) == Ok(r.value.commits[h]))
  {
    if Decode(data).Ok? {
      DecodeMapValues(data.fields["branches"].fields, BranchTarget, "branches");
      DecodeMapValues(data.fields["commits"].fields, Commits.FromDict, "commits");
    }
  }

  /** Decoding what was encoded gives back the record. */
  lemma RecordRoundTrip(rec: RepoRecord)
    ensures Decode(Encode(rec)) == Ok(rec)
  {
    var d := Encode(rec);
    assert GetString(d, "name") == Ok(rec.name);
    assert GetString(d, "path") == Ok(rec.path);
    assert GetObject(d, "branches") == Ok(EncodeBranches(rec.branches).fields);
    BranchesRoundTrip(rec.branches);
    assert GetString(d, "current_branch") == Ok(rec.currentBranch);
    assert GetObject(d, "commits") == Ok(EncodeCommits(rec.commits).fields);
    CommitsRoundTrip(rec.commits);
    assert GetOptString(d, "head") == Ok(rec.headHash);
  }

  /** Every commit is stored under its own hash, as `commit` stores them. */
  ghost predicate KeyedByHash(commits: map<string, Commit>)
  {
    forall h :: h in commits ==> commits[h].hash == h
  }

  /** The head, when there is one, is the commit stored under its own hash. */
  ghost predicate HeadStored(commits: map<string, Commit>, head: Option<Commit>)
  {
    head.Some? ==> head.value.hash in commits && commits[head.value.hash] == head.value
  }

  /** The current branch points at the head's hash, or at nothing while there is no head. */
  ghost predicate BranchAtHead(branches: map<string, Option<string>>, current: string, head: Option<Commit>)
  {
    current in branches && branches[current] == HashOf(head)
  }

  /** Every stored commit's parent hash is absent or names a stored commit. */
  ghost predicate ParentsStored(commits: map<string, Commit>)
  {
    forall h :: h in commits && commits[h].parentHash.Some? ==> commits[h].parentHash.value in commits
  }

  /** A persisted repository as `commit` and `to_dict` leave it: commits under their own hashes,
      parents stored, the current branch and the head naming the same stored commit. */
  ghost predicate ValidRecord(rec: RepoRecord)
  {
    && KeyedByHash(rec.commits) && ParentsStored(rec.commits)
    && rec.currentBranch in rec.branches && rec.branches[rec.currentBranch] == rec.headHash
    && (rec.headHash.Some? ==> rec.headHash.value in rec.commits)
  }

  class Repository {
    const name: string
    const path: string
    var branches: map<string, Option<string>>
    var currentBranch: string
    const staging: Staging.StagingArea
    var commits: map<string, Commit>
    var head: Option<Commit>

    /** The head is stored under its hash, the current branch points at it, and every parent hash
        names a stored commit. */
    ghost predicate Valid()
      reads this
    {
      HeadStored(commits, head) && BranchAtHead(branches, currentBranch, head) && ParentsStored(commits)
    }

    /** The repository holds what `rec` records, with the head looked up by its hash. */
    ghost predicate Restores(rec: RepoRecord)
      reads this
    {
      && name == rec.name && path == rec.path
      && branches == rec.branches && currentBranch == rec.currentBranch
      && commits == rec.commits && head == Lookup(rec.commits, rec.headHash)
    }

    /** What `from_dict` builds from `rec`: the recorded fields, an empty staging area, and a valid
        repository whenever `rec` is consistent. */
    ghost predicate Rebuilt(rec: RepoRecord)
      reads this, staging
    {
      Restores(rec) && staging.files == [] && (ValidRecord(rec) ==> Valid())
    }

    constructor (name: string, path: string)
      ensures this.name == name && this.path == path
      ensures branches == map["main" := None] && currentBranch == "main"
      ensures commits == map[] && head == None
      ensures fresh(staging) && staging.files == []
      ensures Valid()
    {
      this.name := name;
      this.path := path;
      branches := map["main" := None];
      currentBranch := "main";
      staging := new Staging.StagingArea();
      commits := map[];
      head := None;
    }

    /** Stages `filename` with the default status; a missing file is the staging area's error. */
    method AddFile(filename: string, probe: Staging.Probe) returns (r: Result<string, Staging.StagingError>)
      modifies staging
      ensures probe.Missing? ==> r == Err(Staging.FileNotFound(filename)) && staging.files == old(staging.files)
      ensures probe.Found? ==>
        && r == Ok(filename)
        && staging.files == old(staging.files) +
           [Staging.StagedFile(filename, Staging.DefaultStatus, probe.checksum, Staging.Metadata(probe.size, probe.lastModified))]
    {
      r := staging.AddFile(filename, probe);
    }

    /** The staging-to-commit transition. `sha1` is the hash function, `hashedAt` and `committedAt`
        the two readings of the clock the source takes. */
    method Commit(message: string, authorEmail: string, sha1: string -> string, hashedAt: Timestamp, committedAt: Timestamp)
      returns (r: CommitOutcome)
      modifies this, staging
      ensures old(Valid()) ==> Valid()
      ensures KeyedByHash(old(commits)) ==> KeyedByHash(commits)
      ensures currentBranch == old(currentBranch)
      ensures old(staging.files) == [] ==>
        r == NothingToCommit && commits == old(commits) && branches == old(branches) && head == old(head) && staging.files == []
      ensures old(staging.files) != [] ==>
        var h := sha1(message + authorEmail + IsoFormat(hashedAt));
        var c := Commits.Commit.Commit(h, committedAt, authorEmail, message, HashOf(old(head)), old(staging.GetFiles()), currentBranch);
        && r == Created(h, currentBranch)
        && commits == old(commits)[h := c]
        && branches == old(branches)[currentBranch := Some(h)]
        && head == Some(c)
        && staging.files == []
    {
      if staging.files == [] {
        return NothingToCommit;
      }
      var h := sha1(message + authorEmail + IsoFormat(hashedAt));
      var parent := if head.Some? then Some(head.value.hash) else None;
      var c := Commits.Commit.Commit(h, committedAt, authorEmail, message, parent, staging.GetFiles(), currentBranch);
      commits := commits[h := c];
      branches := branches[currentBranch := Some(h)];
      head := Some(c);
      staging.Clear();
      r := Created(h, currentBranch);
    }

    function Snapshot(): RepoRecord
      reads this
    {
      RepoRecord(name, path, branches, currentBranch, HashOf(head), commits)
    }

    function ToDict(): (d: Json)
      reads this
      ensures d.Obj? && d.fields.Keys == RepoKeys
    {
      Encode(Snapshot())
    }

    /** A repository rebuilt from its dict: staging starts empty and the head is looked up by hash. */
    static method FromDict(data: Json) returns (r: Result<Repository, DecodeError>)
      ensures r.Err? ==> Decode(data) == Err(r.error)
      ensures r.Ok? ==>
        && Decode(data).Ok?
        && fresh(r.value) && fresh(r.value.staging)
        && r.value.Restores(Decode(data).value)
        && (KeyedByHash(r.value.commits) ==> HeadStored(r.value.commits, r.value.head))
        && (ValidRecord(Decode(data).value) ==> r.value.Valid())
        && r.value.staging.files == []
    {
      var decoded := Decode(data);
      if decoded.Err? {
        return Err(decoded.error);
      }
      var rec := decoded.value;
      var repo := new Repository(rec.name, rec.path);
      repo.branches := rec.branches;
      repo.currentBranch := rec.currentBranch;
      repo.commits := rec.commits;
      repo.head := Lookup(rec.commits, rec.headHash);
      r := Ok(repo);
    }
  }

  /** Reloading a repository's dict restores its name, path, branches, current branch, commits and head. */
  lemma ReloadRestores(repo: Repository)
    requires HeadStored(repo.commits, repo.head)
    ensures Decode(repo.ToDict()) == Ok(repo.Snapshot())
    ensures Lookup(repo.commits, repo.Snapshot().headHash) == repo.head
  {
    RecordRoundTrip(repo.Snapshot());
  }

  /** A persisted head hash that names no stored commit reloads as no head. */
  lemma DanglingHeadReloadsAsNone(rec: RepoRecord)
    requires rec.headHash.Some? && rec.headHash.value !in rec.commits
    ensures Lookup(rec.commits, rec.headHash) == None
  {
  }

  /** A valid repository whose commits sit under their own hashes saves as a valid record, so it
      reloads valid. */
  lemma SnapshotValid(repo: Repository)
    requires repo.Valid() && KeyedByHash(repo.commits)
    ensures ValidRecord(repo.Snapshot())
  {
  }

  /** A current branch that names a dangling head hash no longer points at the head after reload. */
  lemma DanglingHeadBreaksBranch(rec: RepoRecord)
    requires rec.headHash.Some? && rec.headHash.value !in rec.commits
    requires rec.currentBranch in rec.branches && rec.branches[rec.currentBranch] == rec.headHash
    ensures !BranchAtHead(rec.branches, rec.currentBranch, Lookup(rec.commits, rec.headHash))
  {
  }

  /** The names of `repos`, one per repository, in order. */
  function Names(repos: seq<Repository>): (names: seq<string>)
    ensures |names| == |repos|
    ensures forall i :: 0 <= i < |repos| ==> names[i] == repos[i].name
  {
    if repos == [] then [] else [repos[0].name] + Names(repos[1..])
  }

  class RepositoryManager {
    var repositories: seq<Repository>

    constructor ()
      ensures repositories == []
    {
      repositories := [];
    }

    /** Always appends a new repository, whether or not the name is already taken. */
    method CreateRepository(name: string, path: string) returns (repo: Repository)
      modifies this
      ensures repositories == old(repositories) + [repo]
      ensures fresh(repo) && fresh(repo.staging) && repo.Valid()
      ensures repo.name == name && repo.path == path
      ensures repo.branches == map["main" := None] && repo.currentBranch == "main"
      ensures repo.commits == map[] && repo.head == None && repo.staging.files == []
    {
      repo := new Repository(name, path);
      repositories := repositories + [repo];
    }

    /** The first repository called `name`, or null. */
    function GetRepository(name: string): (r: Repository?)
      reads this
      ensures r == null <==> forall i :: 0 <= i < |repositories| ==> repositories[i].name != name
      ensures r != null ==> r.name == name
      ensures r != null ==> exists i :: 0 <= i < |repositories| && repositories[i] == r &&
                                        forall j :: 0 <= j < i ==> repositories[j].name != name
    {
      match FirstWhere(repositories, (repo: Repository) => repo.name == name)
      case None => null
      case Some(i) => repositories[i]
    }

    function ListRepositories(): (names: seq<string>)
      reads this
      ensures |names| == |repositories| && forall i :: 0 <= i < |repositories| ==> names[i] == repositories[i].name
    {
      Names(repositories)
    }

    /** Replaces the registry with the repositories decoded from `data`; a dict that does not decode
        raises before anything is replaced. */
    method LoadRepositories(data: seq<Json>) returns (r: Result<(), DecodeError>)
      modifies this
      ensures r.Err? <==> DecodeAll(data).Err?
      ensures r.Err? ==> r.error == DecodeAll(data).error && repositories == old(repositories)
      ensures r.Ok? ==> |repositories| == |data| && forall i :: 0 <= i < |data| ==>
        fresh(repositories[i]) && fresh(repositories[i].staging) && repositories[i].Rebuilt(DecodeAll(data).value[i])
      ensures r.Ok? ==> Separate(repositories)
    {
      var loaded := LoadAll(data);
      if loaded.Err? {
        return Err(loaded.error);
      }
      repositories := loaded.value;
      r := Ok(());
    }
  }

  /** No two repositories of `repos` are the same object or share a staging area. */
  ghost predicate Separate(repos: seq<Repository>)
  {
    forall i, j :: 0 <= i < j < |repos| ==> repos[i] != repos[j] && repos[i].staging != repos[j].staging
  }

  /** Each repository of `repos` was rebuilt from the record at its index. */
  ghost predicate AllRebuilt(repos: seq<Repository>, recs: seq<RepoRecord>)
    reads set i | 0 <= i < |repos| :: repos[i]
    reads set i | 0 <= i < |repos| :: repos[i].staging
  {
    |repos| == |recs| && forall i :: 0 <= i < |repos| ==> repos[i].Rebuilt(recs[i])
  }

  /** Appending a repository rebuilt from `rec` keeps every index rebuilt from its record. */
  lemma AllRebuiltAppend(repos: seq<Repository>, recs: seq<RepoRecord>, repo: Repository, rec: RepoRecord)
    requires AllRebuilt(repos, recs) && repo.Rebuilt(rec)
    ensures AllRebuilt(repos + [repo], recs + [rec])
  {
  }

  /** `repo` is none of the repositories of `repos` and shares a staging area with none of them. */
  ghost predicate Apart(repos: seq<Repository>, repo: Repository)
  {
    forall i :: 0 <= i < |repos| ==> repos[i] != repo && repos[i].staging != repo.staging
  }

  /** A repository made since `repos` existed is apart from them. */
  twostate lemma FreshApart(repos: seq<Repository>, new repo: Repository)
    requires fresh(repo) && fresh(repo.staging)
    ensures Apart(repos, repo)
  {
  }

  /** Appending a repository apart from the others keeps them separate. */
  lemma SeparateAppend(repos: seq<Repository>, repo: Repository)
    requires Separate(repos) && Apart(repos, repo)
    ensures Separate(repos + [repo])
  {
  }

  /** Decodes every dict of `data` into a new repository, in order, stopping at the first failure. */
  method LoadAll(data: seq<Json>) returns (r: Result<seq<Repository>, DecodeError>)
    ensures r.Err? <==> DecodeAll(data).Err?
    ensures r.Err? ==> r.error == DecodeAll(data).error
    ensures r.Ok? ==> |r.value| == |data| && AllRebuilt(r.value, DecodeAll(data).value)
    ensures r.Ok? ==> forall i :: 0 <= i < |data| ==> fresh(r.value[i]) && fresh(r.value[i].staging)
    ensures r.Ok? ==> Separate(r.value)
  {
    var loaded: seq<Repository> := [];
    ghost var recs: seq<RepoRecord> := [];
    for k := 0 to |data|
      invariant DecodeAll(data[..k]) == Ok(recs)
      invariant |loaded| == |recs| == k
      invariant forall i :: 0 <= i < k ==> fresh(loaded[i]) && fresh(loaded[i].staging)
      invariant AllRebuilt(loaded, recs)
      invariant Separate(loaded)
    {
      var next;
      next, recs := LoadNext(data, k, recs, loaded);
      if next.Err? {
        return Err(next.error);
      }
      loaded := next.value;
    }
    assert data[..|data|] == data;
    r := Ok(loaded);
  }

  /** Decodes the dict at `k` and appends its new repository to `loaded`, the repositories of the
      dicts before it; a failure is the failure of the whole list. */
  method LoadNext(data: seq<Json>, k: nat, ghost recs: seq<RepoRecord>, loaded: seq<Repository>)
    returns (r: Result<seq<Repository>, DecodeError>, ghost extended: seq<RepoRecord>)
    requires k < |data| && DecodeAll(data[..k]) == Ok(recs)
    requires AllRebuilt(loaded, recs) && Separate(loaded)
    ensures r.Err? ==> DecodeAll(data) == Err(r.error)
    ensures r.Ok? ==>
      && DecodeAll(data[..k + 1]) == Ok(extended)
      && |r.value| == k + 1 && r.value == loaded + [r.value[k]]
      && fresh(r.value[k]) && fresh(r.value[k].staging)
      && AllRebuilt(r.value, extended) && Separate(r.value)
  {
    var repo;
    repo, extended := LoadOne(data, k, recs);
    if repo.Err? {
      return Err(repo.error), extended;
    }
    FreshApart(loaded, repo.value);
    SeparateAppend(loaded, repo.value);
    AllRebuiltAppend(loaded, recs, repo.value, extended[k]);
    r := Ok(loaded + [repo.value]);
  }

  /** Decodes the dict at `k`, given the records of the dicts before it; a failure is the failure
      of the whole list. */
  method LoadOne(data: seq<Json>, k: nat, ghost recs: seq<RepoRecord>)
    returns (r: Result<Repository, DecodeError>, ghost extended: seq<RepoRecord>)
    requires k < |data| && DecodeAll(data[..k]) == Ok(recs)
    ensures r.Err? ==> DecodeAll(data) == Err(r.error)
    ensures r.Ok? ==>
      && DecodeAll(data[..k + 1]) == Ok(extended) && extended == recs + [extended[k]]
      && fresh(r.value) && fresh(r.value.staging) && r.value.Rebuilt(extended[k])
  {
    r := Repository.FromDict(data[k]);
    if r.Err? {
      DecodeAllFailsAt(data, k, recs);
      return r, recs;
    }
    DecodeAllExtends(data, k, recs);
    extended := recs + [Decode(data[k]).value];
  }

  /** The records of all dicts, in order; the first dict that does not decode gives the error. */
  function DecodeAll(data: seq<Json>): (r: Result<seq<RepoRecord>, DecodeError>)
    ensures r.Ok? ==> |r.value| == |data|
    decreases |data|, 1
  {
    if data == [] then Ok([]) else DecodeLast(data)
  }

  /** The records of all dicts but the last, followed by the last one's. */
  function DecodeLast(data: seq<Json>): (r: Result<seq<RepoRecord>, DecodeError>)
    requires data != []
    ensures r.Ok? ==> |r.value| == |data|
    decreases |data|, 0
  {
    match DecodeAll(data[..|data| - 1])
    case Err(e) => Err(e)
    case Ok(recs) =>
      match Decode(data[|data| - 1])
      case Err(e) => Err(e)
      case Ok(rec) => Ok(recs + [rec])
  }

  /** A dict that decodes extends the records of the dicts before it. */
  lemma DecodeAllExtends(data: seq<Json>, k: nat, recs: seq<RepoRecord>)
    requires k < |data| && DecodeAll(data[..k]) == Ok(recs) && Decode(data[k]).Ok?
    ensures DecodeAll(data[..k + 1]) == Ok(recs + [Decode(data[k]).value])
  {
    assert data[..k + 1][..k] == data[..k];
  }

  /** The first dict that does not decode gives the error of the whole list. */
  lemma DecodeAllFailsAt(data: seq<Json>, k: nat, recs: seq<RepoRecord>)
    requires k < |data| && DecodeAll(data[..k]) == Ok(recs) && Decode(data[k]).Err?
    ensures DecodeAll(data) == Err(Decode(data[k]).error)
  {
    var prefix := data[..k + 1];
    assert prefix[..|prefix| - 1] == data[..k] && prefix[|prefix| - 1] == data[k];
    DecodeAllPrefixError(data, k + 1);
  }

  /** A failure within a prefix is the failure of the whole list. */
  lemma {:induction false} DecodeAllPrefixError(data: seq<Json>, n: nat)
    requires n <= |data| && DecodeAll(data[..n]).Err?
    ensures DecodeAll(data) == DecodeAll(data[..n])
    decreases |data| - n
  {
    if n < |data| {
      assert data[..n + 1][..n] == data[..n];
      DecodeAllPrefixError(data, n + 1);
    } else {
      assert data[..n] == data;
    }
  }

  /** A name is listed exactly when looking it up finds a repository. */
  lemma ListedIffFound(m: RepositoryManager, name: string)
    ensures name in m.ListRepositories() <==> m.GetRepository(name) != null
  {
    var names := m.ListRepositories();
    if name in names {
      var i :| 0 <= i < |names| && names[i] == name;
      assert m.repositories[i].name == name;
    }
  }
}
