/** Pull requests and their FIFO queue (proyecto1/pull_request.py). */
module PullRequests {
  import opened Wrappers
  import opened Time
  import opened Json
  import Text

  const Open := "open"
  const Approved := "approved"
  const Rejected := "rejected"
  const Merged := "merged"

  /** Every field of a pull request, as `to_dict` writes them. */
  datatype PrRecord = PrRecord(
    id: string,
    title: string,
    description: string,
    author: string,
    sourceBranch: string,
    targetBranch: string,
    createdAt: Timestamp,
    status: string,
    reviewers: seq<string>,
    comments: seq<string>,
    commits: seq<string>,
    mergedAt: Option<Timestamp>,
    tags: seq<string>)

  const PrKeys: set<string> := {
    "id", "title", "description", "author", "source_branch", "target_branch", "created_at",
    "status", "reviewers", "comments", "commits", "merged_at", "tags"}

  function EncodeMergedAt(t: Option<Timestamp>): Json
  {
    match t
    case None => Null
    case Some(at) => Str(IsoFormat(at))
  }

  function Encode(rec: PrRecord): (d: Json)
    ensures d.Obj? && d.fields.Keys == PrKeys
  {
    Obj(map[
      "id" := Str(rec.id),
      "title" := Str(rec.title),
      "description" := Str(rec.description),
      "author" := Str(rec.author),
      "source_branch" := Str(rec.sourceBranch),
      "target_branch" := Str(rec.targetBranch),
      "created_at" := Str(IsoFormat(rec.createdAt)),
      "status" := Str(rec.status),
      "reviewers" := Arr(Strings(rec.reviewers)),
      "comments" := Arr(Strings(rec.comments)),
      "commits" := Arr(Strings(rec.commits)),
      "merged_at" := EncodeMergedAt(rec.mergedAt),
      "tags" := Arr(Strings(rec.tags))])
  }

  /** `fromisoformat(data['merged_at']) if data['merged_at'] else None`: a false value (None, an empty
      string, an empty list or dict) means not merged. */
  function GetMergedAt(data: Json): Result<Option<Timestamp>, DecodeError>
  {
    match Field(data, "merged_at")
    case Err(e) => Err(e)
    case Ok(Null) => Ok(None)
    case Ok(Str(s)) =>
      if s == "" then Ok(None)
      else (match FromIsoFormat(s) case None => Err(WrongType("merged_at")) case Some(t) => Ok(Some(t)))
    case Ok(Arr(items)) => if items == [] then Ok(None) else Err(WrongType("merged_at"))
    case Ok(Obj(m)) => if m == map[] then Ok(None) else Err(WrongType("merged_at"))
  }

  /** The six constructor arguments of `from_dict`, in the order it reads them. */
  function DecodeHeader(data: Json): Result<(string, string, string, string, string, string), DecodeError>
  {
    match GetString(data, "id")
    case Err(e) => Err(e)
    case Ok(id) =>
    match GetString(data, "title")
    case Err(e) => Err(e)
    case Ok(title) =>
    match GetString(data, "description")
    case Err(e) => Err(e)
    case Ok(description) =>
    match GetString(data, "author")
    case Err(e) => Err(e)
    case Ok(author) =>
    match GetString(data, "source_branch")
    case Err(e) => Err(e)
    case Ok(source) =>
    match GetString(data, "target_branch")
    case Err(e) => Err(e)
    case Ok(target) => Ok((id, title, description, author, source, target))
  }

  /** Then the fields `from_dict` assigns one by one. */
  function Decode(data: Json): Result<PrRecord, DecodeError>
  {
    match DecodeHeader(data)
    case Err(e) => Err(e)
    case Ok(h) =>
    match GetTimestamp(data, "created_at")
    case Err(e) => Err(e)
    case Ok(createdAt) =>
    match GetString(data, "status")
    case Err(e) => Err(e)
    case Ok(status) =>
    match GetStrings(data, "reviewers")
    case Err(e) => Err(e)
    case Ok(reviewers) =>
    match GetStrings(data, "comments")
    case Err(e) => Err(e)
    case Ok(comments) =>
    match GetStrings(data, "commits")
    case Err(e) => Err(e)
    case Ok(commits) =>
    match GetMergedAt(data)
    case Err(e) => Err(e)
    case Ok(mergedAt) =>
    match GetStrings(data, "tags")
    case Err(e) => Err(e)
    case Ok(tags) =>
      Ok(PrRecord(h.0, h.1, h.2, h.3, h.4, h.5, createdAt, status, reviewers, comments, commits, mergedAt, tags))
  }

  /** `from_dict` needs a dict holding every key `to_dict` writes, and checks `id` first. */
  lemma DecodeNeedsEveryKey(data: Json)
    ensures var r := Decode(data);
      && (!data.Obj? ==> r == Err(NotAnObject))
      && (data.Obj? && "id" !in data.fields ==> r == Err(MissingKey("id")))
      && (r.Ok? ==> data.Obj? && PrKeys <= data.fields.Keys)
  {
  }

  /** A dict that decodes gives each text field from its key. */
  lemma DecodeReadsEveryKey(data: Json)
    requires Decode(data).Ok?
    ensures data.Obj? && PrKeys <= data.fields.Keys
    ensures var rec := Decode(data).value;
      && data.fields["id"] == Str(rec.id)
      && data.fields["title"] == Str(rec.title)
      && data.fields["description"] == Str(rec.description)
      && data.fields["author"] == Str(rec.author)
      && data.fields["source_branch"] == Str(rec.sourceBranch)
      && data.fields["target_branch"] == Str(rec.targetBranch)
      && data.fields["status"] == Str(rec.status)
  {
  }

  /** A dict that decodes gives each list from its key, as the strings the list holds. */
  lemma DecodeReadsLists(data: Json)
    requires Decode(data).Ok?
    ensures data.Obj?
    ensures var rec := Decode(data).value;
      && "reviewers" in data.fields && data.fields["reviewers"] == Arr(Strings(rec.reviewers))
      && "comments" in data.fields && data.fields["comments"] == Arr(Strings(rec.comments))
      && "commits" in data.fields && data.fields["commits"] == Arr(Strings(rec.commits))
      && "tags" in data.fields && data.fields["tags"] == Arr(Strings(rec.tags))
  {
    GetStringsInverse(data, "reviewers");
    GetStringsInverse(data, "comments");
    GetStringsInverse(data, "commits");
    GetStringsInverse(data, "tags");
  }

  lemma HeaderRoundTrip(rec: PrRecord)
    ensures DecodeHeader(Encode(rec)) ==
      Ok((rec.id, rec.title, rec.description, rec.author, rec.sourceBranch, rec.targetBranch))
  {
    var d := Encode(rec);
    assert GetString(d, "id") == Ok(rec.id);
    assert GetString(d, "title") == Ok(rec.title);
    assert GetString(d, "description") == Ok(rec.description);
    assert GetString(d, "author") == Ok(rec.author);
    assert GetString(d, "source_branch") == Ok(rec.sourceBranch);
    assert GetString(d, "target_branch") == Ok(rec.targetBranch);
  }

  /** `from_dict(to_dict(pr))` restores every field of `pr`. */
  lemma RecordRoundTrip(rec: PrRecord)
    ensures Decode(Encode(rec)) == Ok(rec)
  {
    var d := Encode(rec);
    HeaderRoundTrip(rec);
    IsoRoundTrip(rec.createdAt);
    assert GetTimestamp(d, "created_at") == Ok(rec.createdAt);
    assert GetString(d, "status") == Ok(rec.status);
    StringsRoundTrip(rec.reviewers);
    assert GetStrings(d, "reviewers") == Ok(rec.reviewers);
    StringsRoundTrip(rec.comments);
    assert GetStrings(d, "comments") == Ok(rec.comments);
    StringsRoundTrip(rec.commits);
    assert GetStrings(d, "commits") == Ok(rec.commits);
    if rec.mergedAt.Some? {
      IsoRoundTrip(rec.mergedAt.value);
    }
    assert GetMergedAt(d) == Ok(rec.mergedAt);
    StringsRoundTrip(rec.tags);
    assert GetStrings(d, "tags") == Ok(rec.tags);
  }

  class PullRequest {
    const id: string
    const title: string
    const description: string
    const author: string
    const sourceBranch: string
    const targetBranch: string
    var createdAt: Timestamp
    var status: string
    var reviewers: seq<string>
    var comments: seq<string>
    var commits: seq<string>
    var mergedAt: Option<Timestamp>
    var tags: seq<string>

    function Record(): PrRecord
      reads this
    {
      PrRecord(id, title, description, author, sourceBranch, targetBranch, createdAt,
               status, reviewers, comments, commits, mergedAt, tags)
    }

    /** A new pull request is open, with no reviewers, comments, commits or tags, and not merged. */
    constructor (id: string, title: string, description: string, author: string,
                 sourceBranch: string, targetBranch: string, now: Timestamp)
      ensures Record() == PrRecord(id, title, description, author, sourceBranch, targetBranch, now,
                                   Open, [], [], [], None, [])
    {
      this.id := id;
      this.title := title;
      this.description := description;
      this.author := author;
      this.sourceBranch := sourceBranch;
      this.targetBranch := targetBranch;
      createdAt := now;
      status := Open;
      reviewers := [];
      comments := [];
      commits := [];
      mergedAt := None;
      tags := [];
    }

    method AddReviewer(reviewer: string)
      modifies this
      ensures Record() == old(Record()).(reviewers := old(reviewers) + [reviewer])
    {
      reviewers := reviewers + [reviewer];
    }

    method AddComment(comment: string)
      modifies this
      ensures Record() == old(Record()).(comments := old(comments) + [comment])
    {
      comments := comments + [comment];
    }

    method AddTag(tag: string)
      modifies this
      ensures Record() == old(Record()).(tags := old(tags) + [tag])
    {
      tags := tags + [tag];
    }

    /** Unconditional, whatever the current status. */
    method Approve()
      modifies this
      ensures Record() == old(Record()).(status := Approved)
    {
      status := Approved;
    }

    /** Unconditional, whatever the current status. */
    method Reject()
      modifies this
      ensures Record() == old(Record()).(status := Rejected)
    {
      status := Rejected;
    }

    /** Unconditional, whatever the current status; stamps the merge time. */
    method Merge(now: Timestamp)
      modifies this
      ensures Record() == old(Record()).(status := Merged, mergedAt := Some(now))
    {
      status := Merged;
      mergedAt := Some(now);
    }

    function ToDict(): (d: Json)
      reads this
      ensures d.Obj? && d.fields.Keys == PrKeys
    {
      Encode(Record())
    }

    static method FromDict(data: Json) returns (r: Result<PullRequest, DecodeError>)
      ensures r.Err? ==> Decode(data) == Err(r.error)
      ensures r.Ok? ==> Decode(data) == Ok(r.value.Record()) && fresh(r.value)
    {
      var decoded := Decode(data);
      if decoded.Err? {
        return Err(decoded.error);
      }
      var rec := decoded.value;
      var pr := new PullRequest(rec.id, rec.title, rec.description, rec.author,
                                rec.sourceBranch, rec.targetBranch, rec.createdAt);
      pr.status := rec.status;
      pr.reviewers := rec.reviewers;
      pr.comments := rec.comments;
      pr.commits := rec.commits;
      pr.mergedAt := rec.mergedAt;
      pr.tags := rec.tags;
      r := Ok(pr);
    }
  }

  /** The id `create_pr` gives its `n`-th pull request: `f"PR-{n}"`. */
  function IdFor(n: nat): (id: string)
    ensures |id| > 3 && id[..3] == "PR-"
    ensures forall i :: 3 <= i < |id| ==> Text.IsDigit(id[i])
  {
    "PR-" + Text.NatToString(n)
  }

  /** Distinct counters give distinct ids. */
  lemma IdsDistinct(n: nat, m: nat)
    requires n != m
    ensures IdFor(n) != IdFor(m)
  {
    if IdFor(n) == IdFor(m) {
      assert IdFor(n)[3..] == Text.NatToString(n);
      assert IdFor(m)[3..] == Text.NatToString(m);
      Text.RenderInjective(n, m);
    }
  }

  /** What recomputing `next_id` raises: no `-` in the id, or no number after it. */
  datatype IdError = IndexError | ValueError

  /** `int(pr_id.split('-')[1])`. */
  function IdSuffix(id: string): (r: Result<nat, IdError>)
    ensures '-' !in id ==> r == Err(IndexError)
  {
    Text.SplitWithoutSeparator(id, '-');
    var parts := Text.Split(id, '-');
    if |parts| < 2 then Err(IndexError)
    else match Text.ParseNat(parts[1])
      case None => Err(ValueError)
      case Some(n) => Ok(n)
  }

  /** The suffix of an id `create_pr` made is its counter. */
  lemma SuffixOfCreatedId(n: nat)
    ensures IdSuffix(IdFor(n)) == Ok(n)
  {
    var digits := Text.NatToString(n);
    assert IdFor(n) == "PR" + ['-'] + digits;
    Text.SplitAround("PR", '-', digits);
    Text.ParseRendered(n);
  }

  /** `a` is `b` with some elements left out, the rest in their order. */
  ghost predicate Subsequence<T>(a: seq<T>, b: seq<T>)
  {
    if a == [] then true
    else if b == [] then false
    else if a[0] == b[0] then Subsequence(a[1..], b[1..])
    else Subsequence(a, b[1..])
  }

  /** The pull requests of `prs` with status `status`, in queue order. */
  function WithStatus(prs: seq<PullRequest>, status: string): (r: seq<PullRequest>)
    reads set p | p in prs
    ensures forall i :: 0 <= i < |r| ==> r[i] in prs && r[i].status == status
    ensures forall i :: 0 <= i < |prs| && prs[i].status == status ==> prs[i] in r
    ensures Subsequence(r, prs)
    ensures forall p :: p in prs ==> multiset(r)[p] == if p.status == status then multiset(prs)[p] else 0
  {
    if prs == [] then []
    else
      var rest := WithStatus(prs[1..], status);
      assert multiset(prs) == multiset{prs[0]} + multiset(prs[1..]) by {
        assert prs == [prs[0]] + prs[1..];
      }
      if prs[0].status == status then [prs[0]] + rest else rest
  }

  /** `id` is one `create_pr` hands out while its counter is below `nextId`. */
  ghost predicate IssuedBefore(id: string, nextId: nat)
  {
    exists k: nat :: k < nextId && id == IdFor(k)
  }

  /** Every id of `prs` is one `create_pr` hands out, and no two are equal. */
  ghost predicate CreatedIds(prs: seq<PullRequest>)
  {
    && (forall i :: 0 <= i < |prs| ==> exists k: nat :: prs[i].id == IdFor(k))
    && (forall i, j :: 0 <= i < j < |prs| ==> prs[i].id != prs[j].id)
  }

  /** The counter after loading `prs` on top of `from`: one past the largest number among the ids,
      and never below `from`. The first id without a number gives the error. */
  function NextAfter(prs: seq<PullRequest>, from: nat): (r: Result<nat, IdError>)
    ensures r.Ok? ==> r.value >= from
    ensures r.Ok? ==> forall i :: 0 <= i < |prs| ==> IdSuffix(prs[i].id).Ok? && IdSuffix(prs[i].id).value < r.value
    ensures r.Err? ==> exists i :: 0 <= i < |prs| && IdSuffix(prs[i].id) == Err(r.error)
  {
    if prs == [] then Ok(from)
    else match IdSuffix(prs[0].id)
      case Err(e) => Err(e)
      case Ok(n) =>
        var rest := NextAfter(prs[1..], if n + 1 > from then n + 1 else from);
        assert forall i :: 1 <= i < |prs| ==> prs[i] == prs[1..][i - 1];
        rest
  }

  class PullRequestQueue {
    var queue: seq<PullRequest>
    var nextId: nat

    /** Every queued id was handed out below the counter, and no two queued ids are equal: the next
        `create_pr` cannot repeat an id in the queue. */
    ghost predicate Valid()
      reads this
    {
      && (forall i :: 0 <= i < |queue| ==> IssuedBefore(queue[i].id, nextId))
      && (forall i, j :: 0 <= i < j < |queue| ==> queue[i].id != queue[j].id)
    }

    constructor ()
      ensures queue == [] && nextId == 1
      ensures Valid()
    {
      queue := [];
      nextId := 1;
    }

    /** Opens a pull request with the next id and enqueues it at the tail. */
    method CreatePr(title: string, description: string, author: string,
                    sourceBranch: string, targetBranch: string, now: Timestamp) returns (pr: PullRequest)
      modifies this
      ensures fresh(pr)
      ensures pr.Record() == PrRecord(IdFor(old(nextId)), title, description, author, sourceBranch, targetBranch,
                                      now, Open, [], [], [], None, [])
      ensures nextId == old(nextId) + 1
      ensures queue == old(queue) + [pr]
      ensures old(Valid()) ==> Valid()
    {
      if Valid() {
        forall i | 0 <= i < |queue|
          ensures queue[i].id != IdFor(nextId) && IssuedBefore(queue[i].id, nextId + 1)
        {
          var k: nat :| k < nextId && queue[i].id == IdFor(k);
          IdsDistinct(k, nextId);
        }
      }
      pr := new PullRequest(IdFor(nextId), title, description, author, sourceBranch, targetBranch, now);
      nextId := nextId + 1;
      queue := queue + [pr];
    }

    /** The head of the queue, left in place; null when the queue is empty. */
    function GetNextPr(): (r: PullRequest?)
      reads this
      ensures r == null <==> queue == []
      ensures r != null ==> r == queue[0]
    {
      if queue == [] then null else queue[0]
    }

    /** Dequeues the head; null when the queue is empty. */
    method ProcessNextPr() returns (r: PullRequest?)
      modifies this
      ensures nextId == old(nextId)
      ensures old(queue) == [] ==> r == null && queue == []
      ensures old(queue) != [] ==> r == old(queue)[0] && queue == old(queue)[1..]
      ensures old(Valid()) ==> Valid()
    {
      if queue == [] {
        return null;
      }
      r := queue[0];
      queue := queue[1..];
    }

    /** The first pull request with id `id`, or null. */
    function GetPrById(id: string): (r: PullRequest?)
      reads this
      ensures r == null <==> forall i :: 0 <= i < |queue| ==> queue[i].id != id
      ensures r != null ==> r.id == id
      ensures r != null ==> exists i :: 0 <= i < |queue| && queue[i] == r &&
                                        forall j :: 0 <= j < i ==> queue[j].id != id
    {
      match FirstWhere(queue, (p: PullRequest) => p.id == id)
      case None => null
      case Some(i) => queue[i]
    }

    /** With a status (a non-empty string), the pull requests having it; otherwise a copy of the queue. */
    function ListPrs(status: Option<string>): (r: seq<PullRequest>)
      reads this, set p | p in queue
      ensures !Truthy(status) ==> r == queue
      ensures Truthy(status) ==> forall i :: 0 <= i < |r| ==> r[i].status == status.value
      ensures Truthy(status) ==> forall i :: 0 <= i < |queue| && queue[i].status == status.value ==> queue[i] in r
      ensures Subsequence(r, queue)
      ensures Truthy(status) ==>
        forall p :: p in queue ==> multiset(r)[p] == if p.status == status.value then multiset(queue)[p] else 0
    {
      if Truthy(status) then WithStatus(queue, status.value) else SubsequenceRefl(queue); queue
    }

    method ClearQueue()
      modifies this
      ensures queue == [] && nextId == old(nextId)
      ensures Valid()
    {
      queue := [];
    }

    /** The tail of `load_from_file`, once the file has been read and decoded into `prs`: the queue is
        replaced, then `next_id` becomes one past the last pull request's number. A last id without a
        number raises after the queue has been replaced. */
    method LoadDecoded(prs: seq<PullRequest>) returns (r: Result<(), IdError>)
      modifies this
      ensures queue == prs
      ensures prs == [] ==> r == Ok(()) && nextId == old(nextId)
      ensures prs != [] ==>
        match IdSuffix(prs[|prs| - 1].id)
        case Ok(n) => r == Ok(()) && nextId == n + 1
        case Err(e) => r == Err(e) && nextId == old(nextId)
    {
      queue := prs;
      if queue != [] {
        var suffix := IdSuffix(queue[|queue| - 1].id);
        if suffix.Err? {
          return Err(suffix.error);
        }
        nextId := suffix.value + 1;
      }
      r := Ok(());
    }

    /** The corrected reload: `savedNextId` is the counter as it was saved with the queue, and the
        counter moves past it and past every loaded number, never back. Any id without a number is
        an error, with the counter kept. */
    method LoadPastEveryId(prs: seq<PullRequest>, savedNextId: nat) returns (r: Result<(), IdError>)
      modifies this
      ensures queue == prs
      ensures var from := if savedNextId > old(nextId) then savedNextId else old(nextId);
        match NextAfter(prs, from)
        case Ok(n) => r == Ok(()) && nextId == n
        case Err(e) => r == Err(e) && nextId == old(nextId)
      ensures r.Ok? ==> nextId >= savedNextId && nextId >= old(nextId)
      ensures r.Ok? && CreatedIds(prs) ==> Valid()
    {
      queue := prs;
      var next := if savedNextId > nextId then savedNextId else nextId;
      ghost var from := next;
      var k := 0;
      while k < |prs|
        invariant 0 <= k <= |prs| && next >= from
        invariant NextAfter(prs, from) == NextAfter(prs[k..], next)
      {
        assert prs[k..][1..] == prs[k + 1..];
        var suffix := IdSuffix(prs[k].id);
        if suffix.Err? {
          return Err(suffix.error);
        }
        next := if suffix.value + 1 > next then suffix.value + 1 else next;
        k := k + 1;
      }
      nextId := next;
      r := Ok(());
      if CreatedIds(prs) {
        forall i | 0 <= i < |prs|
          ensures IssuedBefore(prs[i].id, nextId)
        {
          var n: nat :| prs[i].id == IdFor(n);
          SuffixOfCreatedId(n);
        }
      }
    }
  }

  lemma {:induction false} SubsequenceRefl<T>(s: seq<T>)
    ensures Subsequence(s, s)
  {
    if s != [] {
      SubsequenceRefl(s[1..]);
    }
  }

  /** Reloading `[PR-3, PR-2]` sets the counter from the last id to 3, so the next pull request
      created is PR-3 again, beside the loaded PR-3. */
  method ReloadReissuesId(now: Timestamp) returns (queuedIds: seq<string>)
    ensures queuedIds == ["PR-3", "PR-2", "PR-3"]
  {
    var q := new PullRequestQueue();
    var p3 := new PullRequest(IdFor(3), "Old", "desc", "alice", "old", "main", now);
    var p2 := new PullRequest(IdFor(2), "Older", "desc", "bob", "older", "main", now);
    SuffixOfCreatedId(2);
    var loaded := q.LoadDecoded([p3, p2]);
    var c := q.CreatePr("C", "desc", "carol", "c", "main", now);
    SmallIds();
    queuedIds := [p3.id, p2.id, c.id];
  }

  lemma SmallIds()
    ensures IdFor(1) == "PR-1" && IdFor(2) == "PR-2" && IdFor(3) == "PR-3"
  {
    assert Text.NatToString(1) == "1" && Text.NatToString(2) == "2" && Text.NatToString(3) == "3";
  }

  /** A queue whose only pull request was processed saves as an empty list; a new queue loading it
      keeps the counter at 1 and hands out PR-1 a second time. */
  method ReloadAfterDrainReissuesId(now: Timestamp) returns (firstId: string, reissuedId: string)
    ensures firstId == "PR-1" && reissuedId == "PR-1"
  {
    SmallIds();
    var before := new PullRequestQueue();
    var first := before.CreatePr("A", "desc", "alice", "a", "main", now);
    var processed := before.ProcessNextPr();
    var after := new PullRequestQueue();
    var loaded := after.LoadDecoded(before.queue);
    var again := after.CreatePr("B", "desc", "bob", "b", "main", now);
    firstId := first.id;
    reissuedId := again.id;
  }

  /** Three pull requests are processed in the order they were created, numbered from 1. */
  method FifoOrder(now: Timestamp) returns (ids: seq<string>, remaining: nat)
    ensures ids == ["PR-1", "PR-2", "PR-3"] && remaining == 0
  {
    var q := new PullRequestQueue();
    var a := q.CreatePr("Fix bug", "desc", "alice", "fix-1", "main", now);
    var b := q.CreatePr("Add feature", "desc", "bob", "feature", "main", now);
    var c := q.CreatePr("Docs", "desc", "carol", "docs", "main", now);
    var x := q.ProcessNextPr();
    var y := q.ProcessNextPr();
    var z := q.ProcessNextPr();
    assert x == a && y == b && z == c;
    assert Text.NatToString(1) == "1" && Text.NatToString(2) == "2" && Text.NatToString(3) == "3";
    assert x.id == "PR-1" && y.id == "PR-2";
    assert z.id == "PR-3";
    assert q.queue == [];
    ids := [x.id, y.id, z.id];
    remaining := |q.queue|;
  }
}
