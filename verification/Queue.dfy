/** The transfer queue: the stored jobs and the order they are shown and started in. */
module Queue {
  import opened Prelude
  import Names

  /** The text of a job's random id, which also goes into the names of its files. */
  type Id = string

  datatype TransferState =
    | Queued | Running | Paused | WaitingForConflict | WaitingForAuthentication
    | Completed | Failed | Cancelled | Interrupted

  datatype Priority = Low | Normal | High

  datatype ConflictPolicy = Ask | Skip | Overwrite | KeepBoth

  datatype Verification = Pending | SizeVerified | Sha256Verified

  datatype ListFilter = All | Active | OnlyCompleted | OnlyFailed

  datatype Job = Job(
    id: Id,
    batch: Option<nat>,
    state: TransferState,
    priority: Priority,
    policy: ConflictPolicy,
    destination: string,
    partial: string,
    bytesTotal: Option<nat>,
    bytesTransferred: nat,
    retryCount: nat,
    verification: Verification)

  predicate IsTerminal(s: TransferState) {
    s == Completed || s == Failed || s == Cancelled
  }

  predicate Matches(f: ListFilter, s: TransferState) {
    match f
    case All => true
    case Active => !IsTerminal(s)
    case OnlyCompleted => s == Completed
    case OnlyFailed => s == Failed || s == Cancelled
  }

  predicate IsValidTransition(from: TransferState, to: TransferState) {
    || ((from == Queued || from == Interrupted) && to == Running)
    || (from == Queued && to == Paused)
    || (from == Interrupted && (to == WaitingForAuthentication || to == Failed))
    || ((from == Queued || from == Running || from == Paused || from == Interrupted) && to == Cancelled)
    || (from == Running && (to == Paused || to == WaitingForConflict || to == WaitingForAuthentication
                            || to == Completed || to == Failed || to == Interrupted))
    || ((from == Paused || from == WaitingForConflict || from == WaitingForAuthentication
         || from == Interrupted || from == Failed) && to == Queued)
  }

  /** The states that a job may enter this one from. */
  function CameFrom(state: TransferState): set<TransferState> {
    match state
    case Queued => {Paused, WaitingForConflict, WaitingForAuthentication, Failed, Interrupted}
    case Running => {Queued, Interrupted}
    case Paused => {Queued, Running}
    case WaitingForConflict => {Running}
    case WaitingForAuthentication => {Running, Interrupted}
    case Completed => {Running}
    case Failed => {Running, Interrupted}
    case Cancelled => {Queued, Running, Paused, Interrupted}
    case Interrupted => {Running}
  }

  /** What may happen to a job in the queue, for its worker as for everybody else. */
  function Moved(job: Job, next: TransferState): Result<Job> {
    if IsValidTransition(job.state, next) then Ok(job.(state := next)) else Err(Failure(Conflict))
  }

  /** Progress is recorded for running jobs only and never beyond the total known at that time. */
  function Progressed(job: Job, bytes: nat): Result<Job> {
    if job.state != Running then Err(Failure(Conflict))
    else if job.bytesTotal.Some? && bytes > job.bytesTotal.value then Err(Failure(InvalidInput))
    else Ok(job.(bytesTransferred := bytes))
  }

  /** The partial file follows the destination. */
  function Redirected(job: Job, destination: string): Job {
    job.(destination := destination, partial := Names.PartialName(destination, job.id))
  }

  function WithTotal(job: Job, total: nat): Job {
    job.(bytesTotal := Some(total))
  }

  /** A history of one job: each state follows from the one before. */
  predicate IsHistory(states: seq<TransferState>) {
    forall i :: 0 <= i < |states| - 1 ==> IsValidTransition(states[i], states[i + 1])
  }

  predicate IsFinal(s: TransferState) {
    s == Completed || s == Cancelled
  }

  predicate NeedsItsUser(s: TransferState) {
    s == WaitingForConflict || s == WaitingForAuthentication || s == Failed
  }

  predicate Between(states: seq<TransferState>, i: nat, j: nat, some: set<TransferState>) {
    exists k :: i < k < j && k < |states| && states[k] in some
  }

  lemma Steps(states: seq<TransferState>, i: nat)
    requires IsHistory(states) && i + 1 < |states|
    ensures IsValidTransition(states[i], states[i + 1])
  {
  }

  /** Whatever the history: nothing follows a completed or cancelled state. Before a job that waits for its user or has
      failed runs or completes, it has been queued again. And between two runs it was queued or interrupted. */
  lemma HistoriesAreDisciplined(states: seq<TransferState>, i: nat, j: nat)
    requires IsHistory(states) && i < j < |states|
    ensures !IsFinal(states[i])
    ensures NeedsItsUser(states[i]) && (states[j] == Running || states[j] == Completed) ==>
              Between(states, i, j, {Queued})
    ensures states[i] == Running && states[j] == Running ==> Between(states, i, j, {Queued, Interrupted})
    ensures states[j] == Completed ==> states[j - 1] == Running && j == |states| - 1
  {
    Steps(states, i);
    Steps(states, j - 1);
    if j + 1 < |states| {
      Steps(states, j);
    }
    if NeedsItsUser(states[i]) {
      assert states[i + 1] == Queued;
    }
    if states[i] == Running && states[j] == Running {
      assert j - 1 > i && states[j - 1] in {Queued, Interrupted};
    }
  }

  predicate Leads(states: seq<TransferState>, from: TransferState, to: TransferState) {
    states != [] && IsHistory(states) && states[0] == from && states[|states| - 1] == to
  }

  function ToQueued(from: TransferState): seq<TransferState> {
    match from
    case Queued => [Queued]
    case Running => [Running, Paused, Queued]
    case _ => [from, Queued]
  }

  function FromQueued(to: TransferState): seq<TransferState> {
    match to
    case Queued => [Queued]
    case Running => [Queued, Running]
    case _ => [Queued, Running, to]
  }

  /** A job can come from one state to another exactly when it is not in a final one, or stays there. */
  lemma HistoriesLeadOn(from: TransferState, to: TransferState)
    ensures (exists states :: Leads(states, from, to)) <==> from == to || !IsFinal(from)
  {
    if from == to {
      assert Leads([from], from, to);
    } else if !IsFinal(from) {
      var states := ToQueued(from)[..|ToQueued(from)| - 1] + FromQueued(to);
      assert Leads(states, from, to);
    } else {
      forall states | Leads(states, from, to) ensures false {
        Steps(states, 0);
      }
    }
  }

  predicate Selected(jobs: map<Id, Job>, id: Id, f: ListFilter) {
    id in jobs && Matches(f, jobs[id].state)
  }

  /** The ids of the order whose jobs do, or do not, match. */
  function Select(order: seq<Id>, jobs: map<Id, Job>, f: ListFilter, matching: bool): seq<Id> {
    if order == [] then []
    else
      var rest := Select(order[1..], jobs, f, matching);
      if Selected(jobs, order[0], f) == matching then [order[0]] + rest else rest
  }

  function Without(order: seq<Id>, id: Id): seq<Id> {
    if order == [] then []
    else if order[0] == id then Without(order[1..], id)
    else [order[0]] + Without(order[1..], id)
  }

  function Index(order: seq<Id>, id: Id): (i: nat)
    ensures i <= |order|
    ensures i < |order| ==> order[i] == id
    ensures id in order ==> i < |order|
  {
    if order == [] || order[0] == id then 0 else Index(order[1..], id) + 1
  }

  function Insert(order: seq<Id>, index: nat, id: Id): seq<Id>
    requires index <= |order|
  {
    order[..index] + [id] + order[index..]
  }

  /** Descending priority as an ascending key. */
  function PriorityKey(jobs: map<Id, Job>, id: Id): int {
    match if id in jobs then jobs[id].priority else Normal
    case High => 0
    case Normal => 1
    case Low => 2
  }

  /** High comes before Normal, and Normal before Low. */
  predicate IsMoreUrgent(jobs: map<Id, Job>, first: Id, second: Id) {
    && first in jobs && second in jobs
    && ((jobs[first].priority == High && jobs[second].priority != High)
        || (jobs[first].priority != Low && jobs[second].priority == Low))
  }

  lemma SortedByUrgency(was: seq<Id>, order: seq<Id>, jobs: map<Id, Job>)
    requires StablySorted(was, order, (x: Id) => PriorityKey(jobs, x)) && forall id :: id in order ==> id in jobs
    ensures forall i, j :: 0 <= i < j < |order| ==> !IsMoreUrgent(jobs, order[j], order[i])
    ensures forall i, j :: 0 <= i < j < |order| && !IsMoreUrgent(jobs, order[i], order[j]) ==>
              ComesBefore(was, order[i], order[j])
  {
    var key := (x: Id) => PriorityKey(jobs, x);
    forall i, j | 0 <= i < j < |order| ensures !IsMoreUrgent(jobs, order[j], order[i]) {
      assert key(order[i]) <= key(order[j]);
    }
    forall i, j | 0 <= i < j < |order| && !IsMoreUrgent(jobs, order[i], order[j])
      ensures ComesBefore(was, order[i], order[j])
    {
      assert key(order[i]) <= key(order[j]);
      StableSortKeepsOrder(was, order, key, i, j);
    }
  }

  ghost predicate ValidQueue(jobs: map<Id, Job>, order: seq<Id>) {
    && Distinct(order)
    && (forall id :: id in order <==> id in jobs)
    && (forall id :: id in jobs ==> jobs[id].id == id)
  }

  // ---------------------------------------------------------------------------------------------
  // Facts about orders

  lemma {:induction false} WithoutFacts(order: seq<Id>, id: Id)
    ensures forall x :: x in Without(order, id) <==> x in order && x != id
    ensures Distinct(order) ==> Distinct(Without(order, id))
    ensures id !in order ==> Without(order, id) == order
  {
    if order == [] {
    } else {
      WithoutFacts(order[1..], id);
      assert Distinct(order) ==> Distinct(order[1..]) && order[0] !in order[1..];
    }
  }

  lemma {:induction false} WithoutConcat(a: seq<Id>, b: seq<Id>, id: Id)
    ensures Without(a + b, id) == Without(a, id) + Without(b, id)
  {
    if a == [] {
      assert a + b == b;
    } else {
      assert (a + b)[1..] == a[1..] + b;
      WithoutConcat(a[1..], b, id);
    }
  }

  lemma InsertFacts(order: seq<Id>, index: nat, id: Id)
    requires index <= |order| && id !in order
    ensures Distinct(order) ==> Distinct(Insert(order, index, id))
    ensures forall x :: x in Insert(order, index, id) <==> x in order || x == id
    ensures Without(Insert(order, index, id), id) == order
  {
    InsertMembers(order, index, id);
    InsertIsUndone(order, index, id);
  }

  lemma InsertMembers(order: seq<Id>, index: nat, id: Id)
    requires index <= |order| && id !in order
    ensures Distinct(order) ==> Distinct(Insert(order, index, id))
    ensures forall x :: x in Insert(order, index, id) <==> x in order || x == id
  {
    assert order == order[..index] + order[index..];
    var more := Insert(order, index, id);
    assert forall k :: 0 <= k < |more| ==>
      more[k] == if k < index then order[k] else if k == index then id else order[k - 1];
  }

  lemma WithoutLast(front: seq<Id>, id: Id)
    requires id !in front
    ensures Without(front + [id], id) == front
  {
    WithoutConcat(front, [id], id);
    WithoutFacts(front, id);
    assert Without([id], id) == [];
  }

  lemma InsertIsUndone(order: seq<Id>, index: nat, id: Id)
    requires index <= |order| && id !in order
    ensures Without(Insert(order, index, id), id) == order
  {
    WithoutConcat(order[..index] + [id], order[index..], id);
    WithoutLast(order[..index], id);
    WithoutFacts(order[index..], id);
    assert order[..index] + order[index..] == order;
  }

  lemma {:induction false} SelectFacts(order: seq<Id>, jobs: map<Id, Job>, f: ListFilter, matching: bool)
    ensures forall x :: x in Select(order, jobs, f, matching) <==> x in order && Selected(jobs, x, f) == matching
    ensures Distinct(order) ==> Distinct(Select(order, jobs, f, matching))
  {
    if order == [] {
    } else {
      SelectFacts(order[1..], jobs, f, matching);
    }
  }

  lemma {:induction false} SelectKeepsOrder(order: seq<Id>, jobs: map<Id, Job>, f: ListFilter)
    ensures KeepsOrderOf(Select(order, jobs, f, true), order)
  {
    if order == [] {
    } else {
      var rest := Select(order[1..], jobs, f, true);
      SelectKeepsOrder(order[1..], jobs, f);
      SelectFacts(order[1..], jobs, f, true);
      OneMoreInOrder(order, rest, Select(order, jobs, f, true));
    }
  }

  /** What is picked from an order in turn stays in order. */
  lemma OneMoreInOrder(order: seq<Id>, rest: seq<Id>, ids: seq<Id>)
    requires order != [] && (ids == rest || ids == [order[0]] + rest)
    requires KeepsOrderOf(rest, order[1..]) && forall x :: x in rest ==> x in order[1..]
    ensures KeepsOrderOf(ids, order)
  {
    var more := |ids| - |rest|;
    forall i, j | 0 <= i < j < |ids| ensures ComesBefore(order, ids[i], ids[j]) {
      assert ids[j] == rest[j - more];
      if i >= more {
        assert ids[i] == rest[i - more];
      }
      ComesBeforeInTail(order, ids[i], ids[j]);
    }
  }

  lemma {:induction false} SelectConcat(a: seq<Id>, b: seq<Id>, jobs: map<Id, Job>, f: ListFilter, matching: bool)
    ensures Select(a + b, jobs, f, matching) == Select(a, jobs, f, matching) + Select(b, jobs, f, matching)
  {
    if a == [] {
      assert a + b == b;
    } else {
      assert (a + b)[1..] == a[1..] + b;
      SelectConcat(a[1..], b, jobs, f, matching);
    }
  }

  lemma PermutationKeepsDistinct(a: seq<Id>, b: seq<Id>)
    requires multiset(a) == multiset(b) && Distinct(a)
    ensures Distinct(b) && forall x :: x in a <==> x in b
  {
    forall x ensures x in a <==> x in b {
      assert x in multiset(a) <==> x in multiset(b);
    }
    forall i, j | 0 <= i < j < |b| && b[i] == b[j] ensures false {
      assert b == b[..i] + [b[i]] + b[i + 1..j] + [b[j]] + b[j + 1..];
      assert multiset(b)[b[i]] >= 2;
      DistinctCounts(a, b[i]);
    }
  }

  lemma {:induction false} DistinctCounts(a: seq<Id>, x: Id)
    requires Distinct(a)
    ensures multiset(a)[x] <= 1
  {
    if a == [] {
    } else {
      assert a == [a[0]] + a[1..];
      DistinctCounts(a[1..], x);
      assert a[0] !in a[1..];
      assert a[0] !in multiset(a[1..]);
    }
  }

  function Ids(jobs: seq<Job>): (ids: seq<Id>)
    ensures |ids| == |jobs| && forall i :: 0 <= i < |jobs| ==> ids[i] == jobs[i].id
  {
    seq(|jobs|, i requires 0 <= i < |jobs| => jobs[i].id)
  }

  function AfterRestart(job: Job): Job {
    if job.state == Running then job.(state := Interrupted) else job
  }

  /** The first k stored jobs are there, none of them running. */
  ghost predicate AreRestored(stored: seq<Job>, k: nat, jobs: map<Id, Job>)
    requires k <= |stored|
  {
    forall i :: 0 <= i < k ==> stored[i].id in jobs && jobs[stored[i].id] == AfterRestart(stored[i])
  }

  lemma OneMoreRestored(stored: seq<Job>, k: nat, jobs: map<Id, Job>)
    requires k < |stored| && (Distinct(Ids(stored)) ==> AreRestored(stored, k, jobs))
    ensures Distinct(Ids(stored)) ==> AreRestored(stored, k + 1, jobs[stored[k].id := AfterRestart(stored[k])])
  {
    assert forall i :: 0 <= i <= k ==> Ids(stored)[i] == stored[i].id;
  }

  // ---------------------------------------------------------------------------------------------
  // The object

  class TransferQueue {
    var jobs: map<Id, Job>
    var order: seq<Id>

    ghost predicate Valid()
      reads this
    {
      ValidQueue(jobs, order)
    }

    /** Loading the stored jobs: whatever was running when the program ended is now interrupted. With
        distinct ids nothing else changes; of jobs sharing an id the last one is kept. */
    constructor Restore(stored: seq<Job>)
      ensures order == Ids(stored)
      ensures forall id :: id in jobs <==> id in Ids(stored)
      ensures forall id :: id in jobs ==> jobs[id].id == id && jobs[id].state != Running
      ensures Distinct(Ids(stored)) ==>
        Valid() && AreRestored(stored, |stored|, jobs)
      ensures Distinct(Ids(stored)) ==>
        forall i :: 0 <= i < |stored| ==>
          jobs[stored[i].id] == if stored[i].state == Running then stored[i].(state := Interrupted) else stored[i]
    {
      jobs, order := map[], [];
      new;
      for k := 0 to |stored|
        invariant order == Ids(stored)[..k]
        invariant forall id :: id in jobs <==> id in order
        invariant forall id :: id in jobs ==> jobs[id].id == id && jobs[id].state != Running
        invariant Distinct(Ids(stored)) ==> AreRestored(stored, k, jobs)
      {
        var job := stored[k];
        if job.state == Running {
          job := job.(state := Interrupted);
        }
        OneMoreRestored(stored, k, jobs);
        assert Ids(stored)[..k + 1] == Ids(stored)[..k] + [job.id];
        order := order + [job.id];
        jobs := jobs[job.id := job];
      }
      assert Ids(stored)[..|stored|] == Ids(stored);
    }

    /** Adding a job keeps the queue in order exactly when its id is new. */
    method Enqueue(job: Job)
      requires Valid()
      modifies this
      ensures order == old(order) + [job.id] && jobs == old(jobs)[job.id := job]
      ensures Valid() <==> job.id !in old(jobs)
    {
      order := order + [job.id];
      jobs := jobs[job.id := job];
      if job.id in old(jobs) {
        assert job.id in old(order);
        ghost var k :| 0 <= k < |old(order)| && old(order)[k] == job.id;
        assert order[k] == order[|order| - 1];
      }
    }

    method List() returns (r: seq<Job>)
      requires Valid()
      ensures |r| == |order|
      ensures forall i :: 0 <= i < |r| ==> r[i] == jobs[order[i]]
    {
      r := [];
      for i := 0 to |order|
        invariant |r| == i
        invariant forall j :: 0 <= j < i ==> r[j] == jobs[order[j]]
      {
        assert order[i] in order;
        if order[i] in jobs {
          r := r + [jobs[order[i]]];
        }
      }
    }

    /** Finding a job to change it. */
    method Amend(id: Id, change: Job -> Job) returns (r: Result<()>)
      requires forall j :: change(j).id == j.id
      modifies this`jobs
      ensures id in old(jobs) ==> r.Ok? && jobs == old(jobs)[id := change(old(jobs)[id])]
      ensures id !in old(jobs) ==> r == Err(Failure(NotFound)) && jobs == old(jobs)
      ensures old(Valid()) ==> Valid()
    {
      if id !in jobs {
        return Err(Failure(NotFound));
      }
      jobs := jobs[id := change(jobs[id])];
      return Ok(());
    }

    /** The partial file follows the destination. */
    method UpdateDestination(id: Id, destination: string) returns (r: Result<()>)
      modifies this`jobs
      ensures old(Valid()) ==> Valid()
      ensures r.Ok? <==> id in old(jobs)
      ensures r.Ok? ==> jobs == old(jobs)[id := old(jobs)[id].(
        destination := destination, partial := Names.PartialName(destination, old(jobs)[id].id))]
      ensures r.Err? ==> jobs == old(jobs)
    {
      r := Amend(id, (j: Job) => Redirected(j, destination));
    }

    method UpdateTotal(id: Id, total: nat) returns (r: Result<()>)
      modifies this`jobs
      ensures old(Valid()) ==> Valid()
      ensures r.Ok? <==> id in old(jobs)
      ensures jobs == if r.Ok? then old(jobs)[id := old(jobs)[id].(bytesTotal := Some(total))] else old(jobs)
    {
      r := Amend(id, (j: Job) => WithTotal(j, total));
    }

    /** The priority counts at once: the order becomes the old one, stably sorted by it. */
    method SetPriority(id: Id, priority: Priority) returns (r: Result<()>)
      requires Valid()
      modifies this
      ensures Valid()
      ensures r.Ok? <==> id in old(jobs)
      ensures r.Err? ==> jobs == old(jobs) && order == old(order)
      ensures r.Ok? ==>
        && jobs == old(jobs)[id := old(jobs)[id].(priority := priority)]
        && (var sorted := jobs; StablySorted(old(order), order, (x: Id) => PriorityKey(sorted, x)))
        && multiset(order) == multiset(old(order))
      // What is more urgent comes first, and what is equally urgent stays in order.
      ensures r.Ok? ==> forall i, j :: 0 <= i < j < |order| ==> !IsMoreUrgent(jobs, order[j], order[i])
      ensures r.Ok? ==>
        forall i, j :: 0 <= i < j < |order| && !IsMoreUrgent(jobs, order[i], order[j]) ==>
          ComesBefore(old(order), order[i], order[j])
    {
      r := Amend(id, (j: Job) => j.(priority := priority));
      if r.Ok? {
        var sorted := jobs;
        StableSortIsStable(order, (x: Id) => PriorityKey(sorted, x));
        order := StableSort(order, (x: Id) => PriorityKey(sorted, x));
        PermutationKeepsDistinct(old(order), order);
        SortedByUrgency(old(order), order, jobs);
      }
    }

    /** Moves one job directly before its target, or to the end when there is no such other job. */
    method Reorder(id: Id, before: Option<Id>) returns (r: Result<()>)
      requires Valid()
      modifies this`order
      ensures Valid()
      ensures r.Ok? <==> id in jobs
      ensures r.Err? ==> order == old(order)
      ensures r.Ok? ==>
        && Without(order, id) == Without(old(order), id)
        && (if before.Some? && before.value in old(order) && before.value != id
            then exists i :: 0 <= i < |order| - 1 && order[i] == id && order[i + 1] == before.value
            else order[|order| - 1] == id)
    {
      if id !in jobs {
        return Err(Failure(NotFound));
      }
      order := RemoveFrom(order, id);
      WithoutFacts(old(order), id);
      var index := if before.Some? then Index(order, before.value) else |order|;
      ghost var others := order;
      InsertFacts(order, index, id);
      order := order[..index] + [id] + order[index..];
      assert order == Insert(others, index, id);
      assert order[index] == id && (index < |others| ==> order[index + 1] == others[index]);
      return Ok(());
    }

    static method RemoveFrom(order: seq<Id>, id: Id) returns (r: seq<Id>)
      ensures r == Without(order, id)
    {
      r := [];
      for i := 0 to |order|
        invariant r == Without(order[..i], id)
      {
        assert order[..i + 1] == order[..i] + [order[i]];
        WithoutConcat(order[..i], [order[i]], id);
        if order[i] != id {
          r := r + [order[i]];
        }
      }
      assert order[..|order|] == order;
    }

    method Transition(id: Id, next: TransferState) returns (r: Result<()>)
      modifies this`jobs
      ensures old(Valid()) ==> Valid()
      ensures r.Ok? <==> id in old(jobs) && IsValidTransition(old(jobs)[id].state, next)
      ensures r.Ok? <==> id in old(jobs) && old(jobs)[id].state in CameFrom(next)
      ensures jobs == if r.Ok? then old(jobs)[id := old(jobs)[id].(state := next)] else old(jobs)
    {
      if id !in jobs {
        return Err(Failure(NotFound));
      }
      var moved := Moved(jobs[id], next);
      if moved.Err? {
        return Err(moved.error);
      }
      jobs := jobs[id := moved.value];
      return Ok(());
    }

    /** Progress is recorded for running jobs only and never beyond the total known at that time. */
    method UpdateProgress(id: Id, bytes: nat) returns (r: Result<()>)
      modifies this`jobs
      ensures old(Valid()) ==> Valid()
      ensures r.Ok? <==> id in old(jobs) && old(jobs)[id].state == Running
                         && (old(jobs)[id].bytesTotal.Some? ==> bytes <= old(jobs)[id].bytesTotal.value)
      ensures jobs == if r.Ok? then old(jobs)[id := old(jobs)[id].(bytesTransferred := bytes)] else old(jobs)
    {
      if id !in jobs {
        return Err(Failure(NotFound));
      }
      var progressed := Progressed(jobs[id], bytes);
      if progressed.Err? {
        return Err(progressed.error);
      }
      jobs := jobs[id := progressed.value];
      return Ok(());
    }

    method Remove(id: Id) returns (r: Option<Job>)
      requires Valid()
      modifies this
      ensures Valid()
      ensures r == if id in old(jobs) then Some(old(jobs)[id]) else None
      ensures jobs == old(jobs) - {id} && order == Without(old(order), id)
    {
      WithoutFacts(order, id);
      order := RemoveFrom(order, id);
      r := if id in jobs then Some(jobs[id]) else None;
      jobs := jobs - {id};
    }

    method Matching(f: ListFilter) returns (ids: seq<Id>)
      requires Valid()
      ensures ids == Select(order, jobs, f, true)
    {
      ids := [];
      for i := 0 to |order|
        invariant ids == Select(order[..i], jobs, f, true)
      {
        assert order[..i + 1] == order[..i] + [order[i]];
        SelectConcat(order[..i], [order[i]], jobs, f, true);
        if order[i] in jobs && Matches(f, jobs[order[i]].state) {
          ids := ids + [jobs[order[i]].id];
        }
      }
      assert order[..|order|] == order;
    }

    /** Cancels the job if that is possible, and removes it either way. */
    method Discard(id: Id)
      requires Valid()
      modifies this
      ensures Valid()
      ensures jobs == old(jobs) - {id} && order == Without(old(order), id)
    {
      if id in jobs && IsValidTransition(jobs[id].state, Cancelled) {
        var _ := Transition(id, Cancelled);
      }
      var _ := Remove(id);
    }

    method RemoveAll(ids: seq<Id>)
      requires Valid()
      modifies this
      ensures Valid()
      ensures order == WithoutAll(old(order), ids)
      ensures jobs == old(jobs) - (set id | id in ids)
    {
      WithoutNone(order);
      for k := 0 to |ids|
        invariant Valid()
        invariant order == WithoutAll(old(order), ids[..k])
        invariant jobs == old(jobs) - (set id | id in ids[..k])
      {
        assert ids[..k + 1] == ids[..k] + [ids[k]];
        WithoutAllStep(old(order), ids[..k], ids[k]);
        Discard(ids[k]);
      }
      assert ids[..|ids|] == ids;
    }

    /** Removes the matching jobs and names them in order; every other job stays as and where it was. */
    method ClearFilter(f: ListFilter) returns (ids: seq<Id>)
      requires Valid()
      modifies this
      ensures Valid()
      ensures ids == Select(old(order), old(jobs), f, true)
      ensures order == Select(old(order), old(jobs), f, false)
      ensures jobs == map id | id in old(jobs) && !Selected(old(jobs), id, f) :: old(jobs)[id]
      ensures forall id :: id in old(jobs) ==>
                (id in ids <==> match f
                                case All => true
                                case Active => old(jobs)[id].state !in {Completed, Failed, Cancelled}
                                case OnlyCompleted => old(jobs)[id].state == Completed
                                case OnlyFailed => old(jobs)[id].state in {Failed, Cancelled})
      ensures KeepsOrderOf(ids, old(order))
    {
      ids := Matching(f);
      SelectFacts(order, jobs, f, true);
      SelectKeepsOrder(order, jobs, f);
      SelectIsRemoval(order, jobs, f, ids);
      RemoveAll(ids);
    }

    method Targets(id: Id, applyToBatch: bool) returns (targets: seq<Id>)
      requires Valid() && id in jobs
      ensures targets == TargetIds(order, jobs, id, applyToBatch)
    {
      targets := [];
      for i := 0 to |order|
        invariant targets == TargetIds(order[..i], jobs, id, applyToBatch)
      {
        assert order[..i + 1] == order[..i] + [order[i]];
        TargetsConcat(order[..i], [order[i]], jobs, id, applyToBatch);
        if IsTarget(jobs, order[i], id, applyToBatch) {
          targets := targets + [order[i]];
        }
      }
      assert order[..|order|] == order;
    }

    /** Answering a conflict: the job, or all unfinished jobs of its batch, take the policy; exactly those
        of them that waited for the answer are queued again and get a worker, in queue order. */
    method ResolveConflict(id: Id, policy: ConflictPolicy, applyToBatch: bool) returns (r: Result<seq<Id>>)
      requires Valid()
      modifies this`jobs
      ensures Valid()
      ensures r.Ok? <==> policy != Ask && id in old(jobs) && old(jobs)[id].state == WaitingForConflict
      ensures r.Err? ==> jobs == old(jobs)
      ensures r.Ok? ==>
        && jobs.Keys == old(jobs).Keys
        && (forall x :: x in jobs ==>
              jobs[x] == if IsTarget(old(jobs), x, id, applyToBatch) then Answered(old(jobs)[x], policy)
                         else old(jobs)[x])
        && r.value == WaitingOnly(TargetIds(order, old(jobs), id, applyToBatch), old(jobs))
      ensures r.Ok? ==>
        forall x :: x in jobs ==>
          var was := old(jobs)[x];
          var batch := old(jobs)[id].batch;
          var isMeant := x == id || (applyToBatch && batch.Some? && was.batch == batch
                                     && was.state !in {Completed, Failed, Cancelled});
          && (x in r.value <==> isMeant && was.state == WaitingForConflict)
          && jobs[x] == was.(policy := if isMeant then policy else was.policy,
                             state := if x in r.value then Queued else was.state)
      ensures r.Ok? ==> KeepsOrderOf(r.value, order)
    {
      if policy == Ask {
        return Err(Failure(InvalidInput));
      }
      if id !in jobs {
        return Err(Failure(NotFound));
      }
      if jobs[id].state != WaitingForConflict {
        return Err(Failure(Conflict));
      }
      var targets := Targets(id, applyToBatch);
      TargetFacts(order, jobs, id, applyToBatch);
      WaitingFacts(order, jobs, id, applyToBatch);
      var spawned := Answer(targets, policy);
      r := Ok(spawned);
    }

    method AnswerOne(id: Id, policy: ConflictPolicy) returns (queued: bool)
      requires Valid() && id in jobs
      modifies this`jobs
      ensures Valid() && jobs == old(jobs)[id := Answered(old(jobs)[id], policy)]
      ensures queued <==> old(jobs)[id].state == WaitingForConflict
    {
      var _ := Amend(id, (j: Job) => j.(policy := policy));
      queued := jobs[id].state == WaitingForConflict;
      if queued {
        var _ := Transition(id, Queued);
      }
    }

    method Answer(targets: seq<Id>, policy: ConflictPolicy) returns (spawned: seq<Id>)
      requires Valid() && Distinct(targets) && forall x :: x in targets ==> x in jobs
      modifies this`jobs
      ensures Valid() && AreAnswered(old(jobs), jobs, targets, policy)
      ensures spawned == WaitingOnly(targets, old(jobs))
    {
      spawned := [];
      ghost var was := jobs;
      for i := 0 to |targets|
        invariant Valid() && AreAnswered(was, jobs, targets[..i], policy)
        invariant spawned == WaitingOnly(targets[..i], was)
      {
        OneMoreAnswer(was, jobs, targets, i, policy);
        var queued := AnswerOne(targets[i], policy);
        if queued {
          spawned := spawned + [targets[i]];
        }
      }
      assert targets[..|targets|] == targets;
    }
  }

  /** Exactly these jobs have taken the answer. */
  ghost predicate AreAnswered(was: map<Id, Job>, now: map<Id, Job>, ids: seq<Id>, policy: ConflictPolicy) {
    && now.Keys == was.Keys
    && forall x :: x in now ==> now[x] == if x in ids then Answered(was[x], policy) else was[x]
  }

  lemma OneMoreAnswer(was: map<Id, Job>, now: map<Id, Job>, targets: seq<Id>, i: nat, policy: ConflictPolicy)
    requires i < |targets| && Distinct(targets) && targets[i] in now && AreAnswered(was, now, targets[..i], policy)
    ensures now[targets[i]] == was[targets[i]]
    ensures AreAnswered(was, now[targets[i] := Answered(now[targets[i]], policy)], targets[..i + 1], policy)
    ensures WaitingOnly(targets[..i + 1], was)
         == WaitingOnly(targets[..i], was) + (if was[targets[i]].state == WaitingForConflict then [targets[i]] else [])
  {
    var x := targets[i];
    assert targets[..i + 1] == targets[..i] + [x] && x !in targets[..i];
    WaitingConcat(targets[..i], [x], was);
  }

  predicate IsTarget(jobs: map<Id, Job>, x: Id, id: Id, applyToBatch: bool)
    requires id in jobs
  {
    && x in jobs
    && (x == id
        || (applyToBatch && jobs[id].batch.Some? && jobs[x].batch == jobs[id].batch && !IsTerminal(jobs[x].state)))
  }

  function TargetIds(order: seq<Id>, jobs: map<Id, Job>, id: Id, applyToBatch: bool): seq<Id>
    requires id in jobs
  {
    if order == [] then []
    else
      var rest := TargetIds(order[1..], jobs, id, applyToBatch);
      if IsTarget(jobs, order[0], id, applyToBatch) then [order[0]] + rest else rest
  }

  function Answered(job: Job, policy: ConflictPolicy): Job {
    job.(policy := policy, state := if job.state == WaitingForConflict then Queued else job.state)
  }

  function WaitingOnly(ids: seq<Id>, jobs: map<Id, Job>): seq<Id> {
    if ids == [] then []
    else
      var rest := WaitingOnly(ids[1..], jobs);
      if ids[0] in jobs && jobs[ids[0]].state == WaitingForConflict then [ids[0]] + rest else rest
  }

  lemma {:induction false} TargetsConcat(a: seq<Id>, b: seq<Id>, jobs: map<Id, Job>, id: Id, applyToBatch: bool)
    requires id in jobs
    ensures TargetIds(a + b, jobs, id, applyToBatch)
         == TargetIds(a, jobs, id, applyToBatch) + TargetIds(b, jobs, id, applyToBatch)
  {
    if a == [] {
      assert a + b == b;
    } else {
      assert (a + b)[1..] == a[1..] + b;
      TargetsConcat(a[1..], b, jobs, id, applyToBatch);
    }
  }

  lemma {:induction false} TargetFacts(order: seq<Id>, jobs: map<Id, Job>, id: Id, applyToBatch: bool)
    requires id in jobs && Distinct(order)
    ensures Distinct(TargetIds(order, jobs, id, applyToBatch))
    ensures forall x ::
              x in TargetIds(order, jobs, id, applyToBatch) <==> x in order && IsTarget(jobs, x, id, applyToBatch)
  {
    if order == [] {
    } else {
      TargetFacts(order[1..], jobs, id, applyToBatch);
      assert order[0] !in order[1..];
    }
  }

  /** The targets that wait for an answer, in the order of the queue. */
  lemma {:induction false} WaitingFacts(order: seq<Id>, jobs: map<Id, Job>, id: Id, applyToBatch: bool)
    requires id in jobs
    ensures var ids := WaitingOnly(TargetIds(order, jobs, id, applyToBatch), jobs);
            && (forall x :: x in ids <==>
                  x in order && IsTarget(jobs, x, id, applyToBatch) && jobs[x].state == WaitingForConflict)
            && KeepsOrderOf(ids, order)
  {
    if order == [] {
    } else {
      WaitingFacts(order[1..], jobs, id, applyToBatch);
      OneMoreInOrder(order, WaitingOnly(TargetIds(order[1..], jobs, id, applyToBatch), jobs),
                     WaitingOnly(TargetIds(order, jobs, id, applyToBatch), jobs));
    }
  }

  lemma {:induction false} WaitingConcat(a: seq<Id>, b: seq<Id>, jobs: map<Id, Job>)
    ensures WaitingOnly(a + b, jobs) == WaitingOnly(a, jobs) + WaitingOnly(b, jobs)
  {
    if a == [] {
      assert a + b == b;
    } else {
      assert (a + b)[1..] == a[1..] + b;
      WaitingConcat(a[1..], b, jobs);
    }
  }

  function WithoutAll(order: seq<Id>, ids: seq<Id>): seq<Id> {
    if order == [] then []
    else if order[0] in ids then WithoutAll(order[1..], ids)
    else [order[0]] + WithoutAll(order[1..], ids)
  }

  lemma {:induction false} WithoutNone(order: seq<Id>)
    ensures WithoutAll(order, []) == order
  {
    if order == [] {
    } else {
      WithoutNone(order[1..]);
    }
  }

  lemma {:induction false} WithoutAllStep(order: seq<Id>, ids: seq<Id>, id: Id)
    ensures WithoutAll(order, ids + [id]) == Without(WithoutAll(order, ids), id)
  {
    if order == [] {
    } else {
      WithoutAllStep(order[1..], ids, id);
    }
  }

  lemma {:induction false} SelectIsRemoval(order: seq<Id>, jobs: map<Id, Job>, f: ListFilter, ids: seq<Id>)
    requires forall x :: x in order ==> (x in ids <==> Selected(jobs, x, f))
    ensures WithoutAll(order, ids) == Select(order, jobs, f, false)
  {
    if order == [] {
    } else {
      SelectIsRemoval(order[1..], jobs, f, ids);
    }
  }
}
