/** The `init`, `status` and `log` commands (proyecto1/commands.py) over the simulator's state. */
module Commands {
  import opened Wrappers
  import opened Commits
  import opened Repositories
  import Staging

  datatype InitOutcome = Usage | AlreadyExists(name: string) | Initialized(name: string)

  /** `status`: no repository selected, or the current branch and the staged entries
      (none staged is the "no files in staging" line). */
  datatype StatusOutcome = NoRepository | OnBranch(branch: string, staged: seq<Staging.Entry>)

  /** `log`: no repository selected, no commits yet, or the commits visited from the head. */
  datatype LogOutcome = NoRepositorySelected | NoCommits | History(branch: string, commits: seq<Commit>)

  /** No two repositories share a name. */
  ghost predicate UniqueNames(repos: seq<Repository>)
  {
    forall i, j :: 0 <= i < j < |repos| ==> repos[i].name != repos[j].name
  }

  /** The guarded history walk: from `start`, follow parent hashes through `store` as the source's
      loop does, but stop before a commit already in `shown`. The loop's next step depends only on
      the current commit, so meeting a shown commit again means the loop would repeat for ever. */
  function Trail(store: map<string, Commit>, start: Option<Commit>, shown: set<Commit>): (t: seq<Commit>)
    ensures (t == []) == start.None?
    ensures t != [] ==> t[0] == start.value
    ensures forall i :: 0 <= i < |t| - 1 ==> Parent(store, t[i]) == Some(t[i + 1])
    decreases store.Values - shown
  {
    if start.None? then []
    else
      var c := start.value;
      match Parent(store, c)
      case None => [c]
      case Some(next) =>
        if next in shown then [c]
        else
          assert next in store.Values;
          [c] + Trail(store, Some(next), shown + {next})
  }

  /** The log `log` builds from the head: the head first, then its ancestors, no commit twice. */
  function HistoryFrom(store: map<string, Commit>, head: Option<Commit>): (h: seq<Commit>)
    ensures (h == []) == head.None?
    ensures h != [] ==> h[0] == head.value
    ensures forall i :: 0 <= i < |h| - 1 ==> Parent(store, h[i]) == Some(h[i + 1])
    ensures forall i, j :: 0 <= i < j < |h| ==> h[i] != h[j]
    ensures h != [] ==> Parent(store, h[|h| - 1]).None? || Parent(store, h[|h| - 1]).value in h
  {
    var shown := if head.Some? then {head.value} else {};
    TrailNeverRevisits(store, head, shown);
    TrailStops(store, head, shown);
    Trail(store, head, shown)
  }

  /** The trail ends at a commit with no stored parent, or whose parent was already shown: it
      runs up to the first commit that would come round again. */
  lemma {:induction false} TrailStops(store: map<string, Commit>, start: Option<Commit>, shown: set<Commit>)
    ensures var t := Trail(store, start, shown);
      t != [] ==>
        (Parent(store, t[|t| - 1]).None? || Parent(store, t[|t| - 1]).value in shown
         || Parent(store, t[|t| - 1]).value in t)
    decreases store.Values - shown
  {
    if start.Some? {
      var c := start.value;
      var next := Parent(store, c);
      if next.Some? && next.value !in shown {
        assert next.value in store.Values;
        var rest := Trail(store, next, shown + {next.value});
        TrailStops(store, next, shown + {next.value});
        var t := Trail(store, start, shown);
        assert t == [c] + rest && t[|t| - 1] == rest[|rest| - 1];
        assert next.value == t[1];
        forall x | x in rest
          ensures x in t
        {
        }
      }
    }
  }

  /** The guard only ever cuts the walk short: up to its length the trail is what the source's
      unguarded loop appends. */
  lemma {:induction false} TrailIsLoopPrefix(store: map<string, Commit>, start: Option<Commit>, shown: set<Commit>, n: nat)
    requires n <= |Trail(store, start, shown)|
    ensures Walk(store, start, n) == Trail(store, start, shown)[..n]
    decreases n
  {
    if n > 0 {
      var c := start.value;
      var next := Parent(store, c);
      if next.Some? && next.value !in shown {
        var rest := Trail(store, next, shown + {next.value});
        TrailIsLoopPrefix(store, next, shown + {next.value}, n - 1);
        assert ([c] + rest)[..n] == [c] + rest[..n - 1];
      }
    }
  }

  /** When the trail ends at a commit without a stored parent, the source's loop ends there too,
      with the same log. */
  lemma {:induction false} LoopEndsWithTrail(store: map<string, Commit>, start: Option<Commit>, shown: set<Commit>, n: nat)
    requires var t := Trail(store, start, shown);
      n >= |t| && (t == [] || Parent(store, t[|t| - 1]).None?)
    ensures Walk(store, start, n) == Trail(store, start, shown)
    decreases n
  {
    if start.Some? {
      var c := start.value;
      var next := Parent(store, c);
      if next.Some? && next.value !in shown {
        var rest := Trail(store, next, shown + {next.value});
        assert ([c] + rest)[|rest|] == rest[|rest| - 1];
        LoopEndsWithTrail(store, next, shown + {next.value}, n - 1);
      }
    }
  }

  /** Every commit after the first lies outside `shown`. */
  predicate AvoidsAfterFirst(t: seq<Commit>, shown: set<Commit>)
  {
    forall i :: 1 <= i < |t| ==> t[i] !in shown
  }

  /** No commit occurs twice in `t`. */
  predicate Distinct(t: seq<Commit>)
  {
    forall i, j :: 0 <= i < j < |t| ==> t[i] != t[j]
  }

  /** The trail never shows a commit twice, nor one shown before it started. */
  lemma {:induction false} TrailNeverRevisits(store: map<string, Commit>, start: Option<Commit>, shown: set<Commit>)
    requires start.Some? ==> start.value in shown
    ensures AvoidsAfterFirst(Trail(store, start, shown), shown)
    ensures Distinct(Trail(store, start, shown))
    decreases store.Values - shown
  {
    if start.Some? {
      var c := start.value;
      var next := Parent(store, c);
      if next.Some? && next.value !in shown {
        assert next.value in store.Values;
        TrailNeverRevisits(store, next, shown + {next.value});
        var rest := Trail(store, next, shown + {next.value});
        var t := [c] + rest;
        forall i | 1 <= i < |t|
          ensures t[i] !in shown
        {
          assert t[i] == rest[i - 1];
        }
        forall i, j | 0 <= i < j < |t|
          ensures t[i] != t[j]
        {
          if i == 0 {
            assert t[0] == c && c in shown && t[j] !in shown;
          } else {
            assert t[i] == rest[i - 1] && t[j] == rest[j - 1];
          }
        }
      }
    }
  }

  /** The trail shows at most one commit more than the store holds commits not yet shown. */
  lemma {:induction false} TrailBounded(store: map<string, Commit>, start: Option<Commit>, shown: set<Commit>)
    ensures |Trail(store, start, shown)| <= |store.Values - shown| + 1
    decreases store.Values - shown
  {
    if start.Some? {
      var next := Parent(store, start.value);
      if next.Some? && next.value !in shown {
        assert next.value in store.Values;
        TrailBounded(store, next, shown + {next.value});
        assert store.Values - (shown + {next.value}) == (store.Values - shown) - {next.value};
      }
    }
  }

  /** Where the source's loop stands after `k` rounds from `start`. */
  function Advance(store: map<string, Commit>, start: Option<Commit>, k: nat): Option<Commit>
    decreases k
  {
    if k == 0 || start.None? then start else Advance(store, Parent(store, start.value), k - 1)
  }

  lemma {:induction false} AdvanceAdd(store: map<string, Commit>, start: Option<Commit>, a: nat, b: nat)
    ensures Advance(store, start, a + b) == Advance(store, Advance(store, start, a), b)
    decreases a
  {
    if a > 0 && start.Some? {
      AdvanceAdd(store, Parent(store, start.value), a - 1, b);
    }
  }

  /** A commit the loop comes back to is visited again and again: the loop never stops. */
  lemma {:induction false} CycleNeverEnds(store: map<string, Commit>, c: Commit, m: nat, j: nat)
    requires m >= 1 && Advance(store, Some(c), m) == Some(c)
    ensures Advance(store, Some(c), j).Some?
    decreases j
  {
    if j < m {
      AdvanceAdd(store, Some(c), j, m - j);
    } else {
      AdvanceAdd(store, Some(c), m, j - m);
      CycleNeverEnds(store, c, m, j - m);
    }
  }

  /** While the loop still stands on a commit, every round appends one. */
  lemma {:induction false} WalkFullWhileAdvancing(store: map<string, Commit>, start: Option<Commit>, n: nat)
    requires forall j :: 0 <= j < n ==> Advance(store, start, j).Some?
    ensures |Walk(store, start, n)| == n
    decreases n
  {
    if n > 0 {
      assert Advance(store, start, 0).Some?;
      var next := Parent(store, start.value);
      forall j | 0 <= j < n - 1
        ensures Advance(store, next, j).Some?
      {
        assert Advance(store, start, j + 1) == Advance(store, next, j);
      }
      WalkFullWhileAdvancing(store, next, n - 1);
    }
  }

  /** Every commit of `shown` leads to `c` after some rounds of the loop. */
  ghost predicate LeadsTo(store: map<string, Commit>, shown: set<Commit>, c: Commit)
  {
    forall s :: s in shown ==> exists k: nat :: Advance(store, Some(s), k) == Some(c)
  }

  /** If the loop stops within `n` rounds, the guard never fires: the trail is the loop's whole log. */
  lemma {:induction false} TrailIsWalk(store: map<string, Commit>, c: Commit, shown: set<Commit>, n: nat)
    requires c in shown && LeadsTo(store, shown, c)
    requires |Walk(store, Some(c), n)| < n
    ensures Trail(store, Some(c), shown) == Walk(store, Some(c), n)
    decreases n
  {
    match Parent(store, c)
    case None =>
    case Some(next) =>
      if next in shown {
        var k: nat :| Advance(store, Some(next), k) == Some(c);
        assert Advance(store, Some(c), k + 1) == Some(c);
        forall j | 0 <= j < n
          ensures Advance(store, Some(c), j).Some?
        {
          CycleNeverEnds(store, c, k + 1, j);
        }
        WalkFullWhileAdvancing(store, Some(c), n);
        assert false;
      } else {
        forall s | s in shown + {next}
          ensures exists k: nat :: Advance(store, Some(s), k) == Some(next)
        {
          if s == next {
            assert Advance(store, Some(s), 0) == Some(next);
          } else {
            var k: nat :| Advance(store, Some(s), k) == Some(c);
            AdvanceAdd(store, Some(s), k, 1);
            assert Advance(store, Some(s), k + 1) == Some(next);
          }
        }
        TrailIsWalk(store, next, shown + {next}, n - 1);
      }
  }

  /** Whenever the source's loop ends (within `n` rounds), `log` shows exactly what it shows. */
  lemma LogMatchesLoopWhenItEnds(store: map<string, Commit>, head: Option<Commit>, n: nat)
    requires |Walk(store, head, n)| < n
    ensures HistoryFrom(store, head) == Walk(store, head, n)
  {
    if head.Some? {
      assert Advance(store, head, 0) == head;
      TrailIsWalk(store, head.value, {head.value}, n);
    }
  }

  /** The discrepancy: a commit stored under its own hash that names itself as parent makes the
      source's `while current:` loop go round forever, while the guarded log shows it once. */
  lemma {:induction false} LogLoopNeverEndsOnCycle(c: Commit, n: nat)
    requires c.hash != "" && c.parentHash == Some(c.hash)
    ensures |Walk(map[c.hash := c], Some(c), n)| == n
    ensures HistoryFrom(map[c.hash := c], Some(c)) == [c]
    decreases n
  {
    if n > 0 {
      LogLoopNeverEndsOnCycle(c, n - 1);
    }
  }

  class Simulator {
    const repoManager: RepositoryManager
    var currentRepo: Repository?

    constructor ()
      ensures fresh(repoManager) && repoManager.repositories == [] && currentRepo == null
    {
      repoManager := new RepositoryManager();
      currentRepo := null;
    }

    /** `git init <name>`: refuses a name already registered, otherwise creates the repository at
        `./<name>` and selects it. */
    method Init(args: seq<string>) returns (r: InitOutcome)
      modifies this, repoManager
      ensures args == [] ==>
        r == Usage && repoManager.repositories == old(repoManager.repositories) && currentRepo == old(currentRepo)
      ensures args != [] && old(repoManager.GetRepository(args[0])) != null ==>
        r == AlreadyExists(args[0]) && repoManager.repositories == old(repoManager.repositories) &&
        currentRepo == old(currentRepo)
      ensures args != [] && old(repoManager.GetRepository(args[0])) == null ==>
        && r == Initialized(args[0])
        && currentRepo != null && fresh(currentRepo)
        && currentRepo.name == args[0] && currentRepo.path == "./" + args[0]
        && currentRepo.branches == map["main" := None] && currentRepo.currentBranch == "main"
        && currentRepo.commits == map[] && currentRepo.head == None
        && fresh(currentRepo.staging) && currentRepo.staging.files == []
        && repoManager.repositories == old(repoManager.repositories) + [currentRepo]
      ensures UniqueNames(old(repoManager.repositories)) ==> UniqueNames(repoManager.repositories)
    {
      if args == [] {
        return Usage;
      }
      var name := args[0];
      if repoManager.GetRepository(name) != null {
        return AlreadyExists(name);
      }
      var repo := repoManager.CreateRepository(name, "./" + name);
      currentRepo := repo;
      r := Initialized(name);
    }

    /** `git status`: the current branch and every staged entry, in staging order. */
    method Status() returns (r: StatusOutcome)
      ensures currentRepo == null ==> r == NoRepository
      ensures currentRepo != null ==>
        r == OnBranch(currentRepo.currentBranch, Staging.Entries(currentRepo.staging.files))
    {
      if currentRepo == null {
        return NoRepository;
      }
      var files := currentRepo.staging.files;
      var staged: seq<Staging.Entry> := [];
      for k := 0 to |files|
        invariant staged == Staging.Entries(files[..k])
      {
        Staging.EntriesAppend(files[..k], files[k]);
        assert files[..k + 1] == files[..k] + [files[k]];
        staged := staged + [Staging.Entry(files[k].status, files[k].filename)];
      }
      assert files[..|files|] == files;
      r := OnBranch(currentRepo.currentBranch, staged);
    }

    /** `git log`: the commits from the head back along parent hashes, newest first. */
    method Log() returns (r: LogOutcome)
      ensures currentRepo == null ==> r == NoRepositorySelected
      ensures currentRepo != null && currentRepo.commits == map[] ==> r == NoCommits
      ensures currentRepo != null && currentRepo.commits != map[] ==>
        r == History(currentRepo.currentBranch, HistoryFrom(currentRepo.commits, currentRepo.head))
    {
      if currentRepo == null {
        return NoRepositorySelected;
      }
      var store := currentRepo.commits;
      if store == map[] {
        return NoCommits;
      }
      var current := currentRepo.head;
      var shown: set<Commit> := if current.Some? then {current.value} else {};
      ghost var history := Trail(store, current, shown);
      var log: seq<Commit> := [];
      while current.Some?
        invariant log + Trail(store, current, shown) == history
        decreases store.Values - shown, if current.Some? then 1 else 0
      {
        var c := current.value;
        var next := if Truthy(c.parentHash) && c.parentHash.value in store then Some(store[c.parentHash.value]) else None;
        ghost var rest := Trail(store, current, shown)[1..];
        assert log + Trail(store, current, shown) == (log + [c]) + rest;
        log := log + [c];
        if next.Some? && next.value !in shown {
          assert next.value in store.Values;
          assert rest == Trail(store, next, shown + {next.value});
          current := next;
          shown := shown + {next.value};
        } else {
          assert rest == [];
          current := None;
        }
      }
      assert log == HistoryFrom(store, currentRepo.head);
      r := History(currentRepo.currentBranch, log);
    }
  }
}
