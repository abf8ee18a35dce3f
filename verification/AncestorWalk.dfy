// Which tasks are watched: the process allow-list with its bounded walk up the ancestors
// (attestation/networktrace/bpf/headers/helpers.h).
module AncestorWalk {
  import opened Options

  const MAX_PARENT_WALK: nat := 64

  /** `pid` and `startTime` are those of the task's group leader; a task without a parent ends the chain. */
  datatype Task = Task(pid: nat, startTime: nat, parent: Option<Task>)

  /** The value says whether descendants are watched too. */
  type PidAllowlist = map<nat, bool>

  datatype Allowlists = Allowlists(pids: PidAllowlist, cgroups: set<nat>, comms: set<string>, injectionTime: nat)

  /** The ancestor `k` hops up. */
  function Ancestor(task: Task, k: nat): Option<Task> {
    if k == 0 then Some(task) else if task.parent.None? then None else Ancestor(task.parent.value, k - 1)
  }

  predicate Started(task: Task, lists: Allowlists) {
    task.startTime < lists.injectionTime
  }

  /** `k` hops up, before the chain ends or reaches pid 1, is a listed process that lets its descendants be watched. */
  ghost predicate WatchedFrom(task: Task, k: nat, lists: Allowlists) {
    && Ancestor(task, k).Some?
    && (forall j :: 1 <= j <= k ==> Ancestor(task, j).Some? && Ancestor(task, j).value.pid > 1)
    && var ancestor := Ancestor(task, k).value;
       ancestor.pid in lists.pids && lists.pids[ancestor.pid] && Started(ancestor, lists)
  }

  /** Monitoring has begun, and the process is listed itself or has a proper ancestor within 64 hops that covers it. */
  ghost predicate PidAllowed(currentPid: nat, task: Task, lists: Allowlists) {
    && lists.injectionTime != 0
    && (|| (currentPid in lists.pids && Started(task, lists))
        || (exists k :: 1 <= k <= MAX_PARENT_WALK && WatchedFrom(task, k, lists)))
  }

  method IsPidAllowed(currentPid: nat, task: Task, lists: Allowlists) returns (allowed: bool)
    ensures allowed <==> PidAllowed(currentPid, task, lists)
  {
    if lists.injectionTime == 0 {
      return false;
    }
    if currentPid in lists.pids && task.startTime < lists.injectionTime {
      return true;
    }
    var walked := task;
    for i := 0 to MAX_PARENT_WALK
      invariant Ancestor(task, i) == Some(walked)
      invariant forall j :: 1 <= j <= i ==> Ancestor(task, j).Some? && Ancestor(task, j).value.pid > 1
      invariant forall k :: 1 <= k <= i ==> !WatchedFrom(task, k, lists)
    {
      AncestorNext(task, i);
      if walked.parent.None? {
        ChainEnds(task, i, lists);
        break;
      }
      var parent := walked.parent.value;
      if parent.pid <= 1 {
        ChainEnds(task, i, lists);
        break;
      }
      if parent.pid in lists.pids && lists.pids[parent.pid] && parent.startTime < lists.injectionTime {
        assert WatchedFrom(task, i + 1, lists);
        return true;
      }
      walked := parent;
    }
    return false;
  }

  lemma {:induction false} AncestorNext(task: Task, k: nat)
    requires Ancestor(task, k).Some?
    ensures Ancestor(task, k + 1) == Ancestor(task, k).value.parent
  {
    if k > 0 {
      AncestorNext(task.parent.value, k - 1);
    }
  }

  /** Nothing beyond a missing parent, or one with a pid of at most 1, is ever considered. */
  lemma ChainEnds(task: Task, i: nat, lists: Allowlists)
    requires Ancestor(task, i + 1).None? || Ancestor(task, i + 1).value.pid <= 1
    ensures forall k :: i < k ==> !WatchedFrom(task, k, lists)
  {
    forall k | i < k ensures !WatchedFrom(task, k, lists) {
      assert 1 <= i + 1 <= k;
    }
  }

  /** Listed with descendants covers every process in the subtree, down to 64 generations and not one more. */
  lemma ReachesSixtyFourGenerations(currentPid: nat, task: Task, k: nat, lists: Allowlists)
    requires lists.injectionTime != 0 && currentPid !in lists.pids && WatchedFrom(task, k, lists) && k >= 1
    requires forall j :: 1 <= j && j != k ==> !WatchedFrom(task, j, lists)
    ensures PidAllowed(currentPid, task, lists) <==> k <= MAX_PARENT_WALK
  {
  }

  /** The tasks of a chain, each the parent of the one before, up to the last that has one. */
  ghost predicate IsChain(chain: seq<Task>) {
    && chain != [] && chain[|chain| - 1].parent.None?
    && (forall i :: 0 <= i < |chain| - 1 ==> chain[i].parent == Some(chain[i + 1]))
  }

  lemma {:induction false} AncestorInChain(chain: seq<Task>, k: nat)
    requires IsChain(chain)
    ensures Ancestor(chain[0], k) == if k < |chain| then Some(chain[k]) else None
    decreases k
  {
    if k > 0 && |chain| > 1 {
      assert chain[0].parent == Some(chain[0 + 1]);
      forall i | 0 <= i < |chain[1..]| - 1 ensures chain[1..][i].parent == Some(chain[1..][i + 1]) {
        assert chain[i + 1].parent == Some(chain[i + 1 + 1]);
      }
      AncestorInChain(chain[1..], k - 1);
    }
  }

  /** Ancestor `k` of the chain is listed with its descendants, started early enough, and no pid of at most 1 comes before. */
  ghost predicate CoveredBy(chain: seq<Task>, k: int, lists: Allowlists) {
    && 1 <= k <= 64 && k < |chain|
    && (forall j :: 1 <= j <= k ==> chain[j].pid > 1)
    && chain[k].pid in lists.pids && lists.pids[chain[k].pid] && chain[k].startTime < lists.injectionTime
  }

  /** In terms of the chain of parents: which processes the walk lets through. */
  lemma PidAllowedIff(currentPid: nat, chain: seq<Task>, lists: Allowlists)
    requires IsChain(chain)
    ensures PidAllowed(currentPid, chain[0], lists) <==>
      && lists.injectionTime != 0
      && (|| (currentPid in lists.pids && chain[0].startTime < lists.injectionTime)
          || (exists k :: CoveredBy(chain, k, lists)))
  {
    forall k: nat ensures Ancestor(chain[0], k) == if k < |chain| then Some(chain[k]) else None {
      AncestorInChain(chain, k);
    }
    forall k: nat ensures 1 <= k <= 64 && WatchedFrom(chain[0], k, lists) <==> CoveredBy(chain, k, lists) {
      if WatchedFrom(chain[0], k, lists) {
        forall j | 1 <= j <= k ensures j < |chain| && chain[j].pid > 1 {
          assert Ancestor(chain[0], j).Some?;
        }
      }
    }
  }

  /** `should_intercept`. */
  ghost predicate ShouldIntercept(pid: nat, cgroup: nat, comm: string, task: Task, lists: Allowlists) {
    PidAllowed(pid, task, lists) || cgroup in lists.cgroups || comm in lists.comms
  }

  method Intercepts(pid: nat, cgroup: nat, comm: string, task: Task, lists: Allowlists) returns (should: bool)
    ensures should <==> ShouldIntercept(pid, cgroup, comm, task, lists)
  {
    var allowed := IsPidAllowed(pid, task, lists);
    if allowed {
      return true;
    }
    if cgroup in lists.cgroups {
      return true;
    }
    return comm in lists.comms;
  }
}
