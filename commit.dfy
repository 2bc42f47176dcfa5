/** Commits and their history (proyecto1/commit.py). */
module Commits {
  import opened Wrappers
  import opened Time
  import opened Json

  /** An immutable commit record; the datatype constructor stores its seven fields as given. */
  datatype Commit = Commit(
    hash: string,
    date: Timestamp,
    authorEmail: string,
    message: string,
    parentHash: Option<string>,
    files: seq<string>,
    branch: string)

  /** The keys of a commit's dict, as `to_dict` writes them. */
  const CommitKeys: set<string> := {"hash", "date", "author_email", "message", "parent_hash", "files", "branch"}

  function ToDict(c: Commit): (d: Json)
    ensures d.Obj? && d.fields.Keys == CommitKeys
    ensures d.fields["files"] == Arr(Strings(c.files))
  {
    Obj(map[
      "hash" := Str(c.hash),
      "date" := Str(IsoFormat(c.date)),
      "author_email" := Str(c.authorEmail),
      "message" := Str(c.message),
      "parent_hash" := OptString(c.parentHash),
      "files" := Arr(Strings(c.files)),
      "branch" := Str(c.branch)])
  }

  /** Reads the keys in the order the source passes them to the constructor; the first bad one is reported. */
  function FromDict(data: Json): Result<Commit, DecodeError>
  {
    match GetString(data, "hash")
    case Err(e) => Err(e)
    case Ok(hash) =>
    match GetTimestamp(data, "date")
    case Err(e) => Err(e)
    case Ok(date) =>
    match GetString(data, "author_email")
    case Err(e) => Err(e)
    case Ok(email) =>
    match GetString(data, "message")
    case Err(e) => Err(e)
    case Ok(message) =>
    match GetOptString(data, "parent_hash")
    case Err(e) => Err(e)
    case Ok(parent) =>
    match GetStrings(data, "files")
    case Err(e) => Err(e)
    case Ok(files) =>
    match GetString(data, "branch")
    case Err(e) => Err(e)
    case Ok(branch) => Ok(Commit(hash, date, email, message, parent, files, branch))
  }

  /** `from_dict` needs a dict holding every key `to_dict` writes, checks `hash` first, and takes
      each field from its key: the strings as they are, `None` for a null parent, the files as
      the strings of their list. */
  lemma FromDictReadsEveryKey(data: Json)
    ensures var r := FromDict(data);
      && (!data.Obj? ==> r == Err(NotAnObject))
      && (data.Obj? && "hash" !in data.fields ==> r == Err(MissingKey("hash")))
      && (r.Ok? ==> data.Obj? && CommitKeys <= data.fields.Keys)
      && (r.Ok? ==>
        && data.fields["hash"] == Str(r.value.hash)
        && data.fields["author_email"] == Str(r.value.authorEmail)
        && data.fields["message"] == Str(r.value.message)
        && data.fields["parent_hash"] == OptString(r.value.parentHash)
        && data.fields["branch"] == Str(r.value.branch)
        && data.fields["files"] == Arr(Strings(r.value.files)))
  {
    if FromDict(data).Ok? {
      StringsOfInverse(data.fields["files"].items);
    }
  }

  /** `from_dict(to_dict(c))` gives back every field of `c`. */
  lemma CommitRoundTrip(c: Commit)
    ensures FromDict(ToDict(c)) == Ok(c)
  {
    IsoRoundTrip(c.date);
    StringsRoundTrip(c.files);
  }

  /** The step of both history walks: the parent of `c` in `store`, or None when `c` has no
      parent hash (None or empty) or the hash is not a key of `store`. */
  function Parent(store: map<string, Commit>, c: Commit): Option<Commit>
  {
    if Truthy(c.parentHash) && c.parentHash.value in store then Some(store[c.parentHash.value]) else None
  }

  /** The commits the source's history loop appends in its first `rounds` rounds, starting at `start`:
      at most `rounds` of them, none only when it starts nowhere, the first being `start` and each
      next one the previous one's parent in `store`. */
  function Walk(store: map<string, Commit>, start: Option<Commit>, rounds: nat): (w: seq<Commit>)
    ensures |w| <= rounds
    ensures w == [] <==> rounds == 0 || start.None?
    ensures w != [] ==> Some(w[0]) == start
    ensures forall i :: 0 <= i < |w| - 1 ==> Parent(store, w[i]) == Some(w[i + 1])
    decreases rounds
  {
    if rounds == 0 || start.None? then []
    else
      var rest := Walk(store, Parent(store, start.value), rounds - 1);
      assert forall i :: 1 <= i < |rest| + 1 ==> ([start.value] + rest)[i] == rest[i - 1];
      [start.value] + rest
  }

  /** A walk that ends before its rounds run out ends at a commit with no stored parent: the
      loop stops only at a missing or empty parent hash, or one that is not a key of `store`. */
  lemma {:induction false} WalkStops(store: map<string, Commit>, start: Option<Commit>, rounds: nat)
    ensures var w := Walk(store, start, rounds);
      w != [] && |w| < rounds ==> Parent(store, w[|w| - 1]).None?
    decreases rounds
  {
    if rounds > 0 && start.Some? {
      var next := Parent(store, start.value);
      WalkStops(store, next, rounds - 1);
      var rest := Walk(store, next, rounds - 1);
      if rest != [] {
        assert Walk(store, start, rounds)[|rest|] == rest[|rest| - 1];
      }
    }
  }

  /** More rounds only extend the walk: a shorter walk is a prefix of a longer one. */
  lemma {:induction false} WalkPrefix(store: map<string, Commit>, start: Option<Commit>, k: nat, n: nat)
    requires k <= n
    ensures Walk(store, start, k) <= Walk(store, start, n)
    decreases k
  {
    if k > 0 && start.Some? {
      WalkPrefix(store, Parent(store, start.value), k - 1, n - 1);
    }
  }

  /** The error `get_history` raises as written: `self.commits` is never assigned. */
  datatype HistoryError = AttributeError

  /** `get_history` as written. Its first round appends `head`, then evaluates `self.commits.get(...)`
      whenever `head` has a parent hash, which raises; so it never returns more than one commit. */
  function HistoryAsWritten(head: Option<Commit>, maxCommits: int): (r: Result<seq<Commit>, HistoryError>)
    ensures r.Err? <==> head.Some? && maxCommits > 0 && Truthy(head.value.parentHash)
    ensures r.Ok? ==> |r.value| <= 1 && (r.value != [] <==> head.Some? && maxCommits > 0)
  {
    if head.None? || maxCommits <= 0 then Ok([])
    else if Truthy(head.value.parentHash) then Err(AttributeError)
    else Ok([head.value])
  }

  /** The discrepancy: a head with a parent makes the written code raise, while the walk over
      a store that holds the parent yields both commits. */
  lemma HistoryAsWrittenRaises(parent: Commit, head: Commit, maxCommits: int)
    requires head.parentHash == Some(parent.hash) && parent.hash != ""
    requires maxCommits >= 2
    ensures HistoryAsWritten(Some(head), maxCommits) == Err(AttributeError)
    ensures var w := Walk(map[parent.hash := parent], Some(head), maxCommits);
      |w| >= 2 && w[0] == head && w[1] == parent
  {
    var store := map[parent.hash := parent];
    assert Parent(store, head) == Some(parent);
  }

  /** Wherever the written code does return, it returns what the corrected walk returns. */
  lemma HistoryAsWrittenAgrees(store: map<string, Commit>, head: Option<Commit>, maxCommits: int)
    requires HistoryAsWritten(head, maxCommits).Ok?
    ensures HistoryAsWritten(head, maxCommits).value == Walk(store, head, if maxCommits < 0 then 0 else maxCommits)
  {
    if head.Some? && maxCommits > 0 {
      assert Parent(store, head.value).None?;
    }
  }

  /** After `add_commit`, the history from the new head runs on into the previous head,
      once the previous head is stored under its hash. */
  lemma {:induction false} AddedCommitLeadsBack(store: map<string, Commit>, prev: Commit, c: Commit, rounds: nat)
    requires prev.hash != "" && prev.hash in store && store[prev.hash] == prev
    requires rounds >= 2
    ensures var w := Walk(store, Some(c.(parentHash := Some(prev.hash))), rounds);
      |w| >= 2 && w[0] == c.(parentHash := Some(prev.hash)) && w[1] == prev
  {
    var linked := c.(parentHash := Some(prev.hash));
    assert Parent(store, linked) == Some(prev);
  }

  /** The linked history: only the most recent commit is held. */
  class CommitHistory {
    var head: Option<Commit>

    constructor ()
      ensures head == None
    {
      head := None;
    }

    /** Links `c` to the current head and makes it the new head; `linked` is `c` as re-parented. */
    method AddCommit(c: Commit) returns (linked: Commit)
      modifies this
      ensures linked == c.(parentHash := if old(head).Some? then Some(old(head).value.hash) else None)
      ensures head == Some(linked)
    {
      linked := c.(parentHash := if head.Some? then Some(head.value.hash) else None);
      head := Some(linked);
    }

    /** `get_history` with the commit store it needs passed explicitly: at most `maxCommits`
        commits, newest first, following parent hashes through `store`. */
    method GetHistory(store: map<string, Commit>, maxCommits: int := 10) returns (history: seq<Commit>)
      ensures history == Walk(store, head, if maxCommits < 0 then 0 else maxCommits)
    {
      var rounds: nat := if maxCommits < 0 then 0 else maxCommits;
      history := [];
      var current := head;
      var count := 0;
      while current.Some? && count < maxCommits
        invariant 0 <= count <= rounds
        invariant history + Walk(store, current, rounds - count) == Walk(store, head, rounds)
        decreases rounds - count
      {
        history := history + [current.value];
        current := Parent(store, current.value);
        count := count + 1;
      }
    }
  }
}
