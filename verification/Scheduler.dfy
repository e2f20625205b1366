/** The transfer permit allocator: a global limit, a limit per endpoint, live limit changes and live
    reordering of the waiting queue.

    State is what the mutex protects, with one function per critical section. TransferScheduler is
    the object whose methods run those sections. System adds the tasks around it, so that whole runs
    of many workers, with sleeping and waking, can be reasoned about. */
module Scheduler {
  import opened Prelude

  type Id = nat

  datatype Waiter = Waiter(id: Id, endpoint: string)

  datatype State = State(
    globalLimit: nat,
    endpointLimit: nat,
    activeGlobal: nat,
    activeByEndpoint: map<string, nat>,
    waiting: seq<Waiter>)
  {
    function Active(endpoint: string): nat {
      if endpoint in activeByEndpoint then activeByEndpoint[endpoint] else 0
    }

    predicate HasRoom(endpoint: string) {
      activeGlobal < globalLimit && Active(endpoint) < endpointLimit
    }

    predicate IsWaiting(id: Id) {
      exists i :: 0 <= i < |waiting| && waiting[i].id == id
    }

    /** The waiter at index is the first one in queue order with room. */
    predicate FirstRunnable(index: nat) {
      && index < |waiting|
      && HasRoom(waiting[index].endpoint)
      && forall i :: 0 <= i < index ==> !HasRoom(waiting[i].endpoint)
    }

    /** The check made under the lock succeeds for this transfer. */
    predicate Grants(id: Id) {
      exists i :: 0 <= i < |waiting| && FirstRunnable(i) && waiting[i].id == id
    }
  }

  function AtLeastOne(n: nat): nat {
    if n == 0 then 1 else n
  }

  function Initial(global: nat, perEndpoint: nat): State {
    State(AtLeastOne(global), AtLeastOne(perEndpoint), 0, map[], [])
  }

  function Limited(s: State, global: nat, perEndpoint: nat): State {
    s.(globalLimit := AtLeastOne(global), endpointLimit := AtLeastOne(perEndpoint))
  }

  /** Position of the last occurrence, as a map built from the ordered ids would hold it; an id that
      is not listed ranks after every listed one. */
  function Rank(orderedIds: seq<Id>, id: Id): (r: nat)
    ensures r <= |orderedIds|
    ensures r < |orderedIds| ==> orderedIds[r] == id
    ensures id in orderedIds ==> r < |orderedIds|
    ensures forall j :: r < j < |orderedIds| ==> orderedIds[j] != id
  {
    if orderedIds == [] then 0
    else
      var last := |orderedIds| - 1;
      if orderedIds[last] == id then last
      else
        var r := Rank(orderedIds[..last], id);
        if r == last then |orderedIds| else r
  }

  function Reordered(s: State, orderedIds: seq<Id>): State {
    s.(waiting := StableSort(s.waiting, (w: Waiter) => Rank(orderedIds, w.id)))
  }

  function Joined(s: State, id: Id, endpoint: string): State {
    if s.IsWaiting(id) then s else s.(waiting := s.waiting + [Waiter(id, endpoint)])
  }

  function RemoveAt<T>(xs: seq<T>, index: nat): seq<T>
    requires index < |xs|
  {
    xs[..index] + xs[index + 1..]
  }

  function Granted(s: State, index: nat, endpoint: string): State
    requires index < |s.waiting|
  {
    s.(waiting := RemoveAt(s.waiting, index),
       activeGlobal := s.activeGlobal + 1,
       activeByEndpoint := s.activeByEndpoint[endpoint := s.Active(endpoint) + 1])
  }

  function Released(s: State, endpoint: string): State {
    var fewer := if s.activeGlobal == 0 then 0 else s.activeGlobal - 1;
    if endpoint !in s.activeByEndpoint then
      s.(activeGlobal := fewer)
    else
      var active := s.activeByEndpoint[endpoint];
      var left := if active == 0 then 0 else active - 1;
      s.(activeGlobal := fewer,
         activeByEndpoint := if left == 0 then s.activeByEndpoint - {endpoint}
                             else s.activeByEndpoint[endpoint := left])
  }

  // ---------------------------------------------------------------------------------------------
  // The object

  class TransferScheduler {
    var globalLimit: nat
    var endpointLimit: nat
    var activeGlobal: nat
    var activeByEndpoint: map<string, nat>
    var waiting: seq<Waiter>

    function View(): State
      reads this
    {
      State(globalLimit, endpointLimit, activeGlobal, activeByEndpoint, waiting)
    }

    constructor (global: nat, perEndpoint: nat)
      ensures View() == Initial(global, perEndpoint)
      ensures globalLimit == (if global == 0 then 1 else global)
      ensures endpointLimit == (if perEndpoint == 0 then 1 else perEndpoint)
      ensures activeGlobal == 0 && activeByEndpoint == map[] && waiting == []
    {
      globalLimit := AtLeastOne(global);
      endpointLimit := AtLeastOne(perEndpoint);
      activeGlobal := 0;
      activeByEndpoint := map[];
      waiting := [];
    }

    method UpdateLimits(global: nat, perEndpoint: nat)
      modifies this`globalLimit, this`endpointLimit
      ensures View() == Limited(old(View()), global, perEndpoint)
      ensures globalLimit == (if global == 0 then 1 else global)
      ensures endpointLimit == (if perEndpoint == 0 then 1 else perEndpoint)
    {
      globalLimit := AtLeastOne(global);
      endpointLimit := AtLeastOne(perEndpoint);
    }

    /** The queue is sorted by the given order, and entries of one rank, among them all that are not listed, keep
        theirs. Nothing else changes. */
    method SetWaitingOrder(orderedIds: seq<Id>)
      modifies this`waiting
      ensures StablySorted(old(waiting), waiting, (w: Waiter) => Rank(orderedIds, w.id))
      ensures multiset(waiting) == multiset(old(waiting))
      ensures View() == Reordered(old(View()), orderedIds)
    {
      StableSortIsStable(waiting, (w: Waiter) => Rank(orderedIds, w.id));
      waiting := StableSort(waiting, (w: Waiter) => Rank(orderedIds, w.id));
    }

    /** The first critical section of an acquisition. */
    method Join(id: Id, endpoint: string)
      modifies this`waiting
      ensures View() == Joined(old(View()), id, endpoint)
      ensures waiting
           == old(waiting) + if exists w :: w in old(waiting) && w.id == id then [] else [Waiter(id, endpoint)]
    {
      var found := false;
      for i := 0 to |waiting|
        invariant found <==> exists j :: 0 <= j < i && waiting[j].id == id
      {
        found := found || waiting[i].id == id;
      }
      if !found {
        waiting := waiting + [Waiter(id, endpoint)];
      }
    }

    /** The critical section that every round of an acquisition runs. */
    method TryAcquire(id: Id, endpoint: string) returns (acquired: bool)
      modifies this
      ensures acquired <==> old(View()).Grants(id)
      ensures acquired ==> exists i :: 0 <= i < |old(waiting)| && old(View()).FirstRunnable(i)
                                       && View() == Granted(old(View()), i, endpoint)
      ensures !acquired ==> View() == old(View())
      ensures acquired ==> activeGlobal == old(activeGlobal) + 1
                           && activeByEndpoint == old(activeByEndpoint)[endpoint := old(View().Active(endpoint)) + 1]
    {
      var i := 0;
      while i < |waiting| && !View().HasRoom(waiting[i].endpoint)
        invariant 0 <= i <= |waiting|
        invariant forall j :: 0 <= j < i ==> !View().HasRoom(waiting[j].endpoint)
      {
        i := i + 1;
      }
      assert i < |waiting| ==> View().FirstRunnable(i);
      if i < |waiting| && waiting[i].id == id {
        var count := if endpoint in activeByEndpoint then activeByEndpoint[endpoint] else 0;
        waiting := waiting[..i] + waiting[i + 1..];
        activeGlobal := activeGlobal + 1;
        activeByEndpoint := activeByEndpoint[endpoint := count + 1];
        acquired := true;
      } else {
        acquired := false;
      }
    }

    /** Dropping a permit. */
    method Release(endpoint: string)
      modifies this
      ensures View() == Released(old(View()), endpoint)
      ensures activeGlobal == if old(activeGlobal) == 0 then 0 else old(activeGlobal) - 1
      ensures forall e :: e in activeByEndpoint <==>
                e in old(activeByEndpoint) && (e == endpoint ==> old(activeByEndpoint)[e] > 1)
      ensures forall e :: e in activeByEndpoint ==>
                activeByEndpoint[e] == old(activeByEndpoint)[e] - if e == endpoint then 1 else 0
    {
      activeGlobal := if activeGlobal == 0 then 0 else activeGlobal - 1;
      if endpoint in activeByEndpoint {
        var active := activeByEndpoint[endpoint];
        active := if active == 0 then 0 else active - 1;
        activeByEndpoint := activeByEndpoint[endpoint := active];
        if active == 0 {
          activeByEndpoint := activeByEndpoint - {endpoint};
        }
      }
    }
  }

  // ---------------------------------------------------------------------------------------------
  // Tasks around the object

  /** Where a worker is inside its acquisition. A notification registered before the check receives
      every broadcast from then on, even while the check runs; fired records that it did. */
  datatype Phase =
    | Starting              // in the queue, about to register a notification
    | Armed(fired: bool)    // notification registered, check not made yet
    | Parked(fired: bool)   // check failed; awake again only once the notification fired
    | Holding               // owns a permit

  datatype Task = Task(endpoint: string, phase: Phase)

  /** Whoever changes limits or order, or drops a permit, unlocks first and broadcasts then. In between others may run;
      pending counts the broadcasts still to come. */
  datatype System = System(sched: State, tasks: map<Id, Task>, pending: nat)

  datatype Event =
    | JoinQueue(id: Id, endpoint: string)
    | Arm(id: Id)
    | Check(id: Id)
    | Wake(id: Id)
    | DropPermit(id: Id)
    | SetLimits(global: nat, perEndpoint: nat)
    | SetOrder(ids: seq<Id>)
    | Broadcast

  function Fired(phase: Phase): Phase {
    match phase
    case Armed(_) => Armed(true)
    case Parked(_) => Parked(true)
    case _ => phase
  }

  function NotifyAll(tasks: map<Id, Task>): map<Id, Task> {
    map id | id in tasks :: Task(tasks[id].endpoint, Fired(tasks[id].phase))
  }

  predicate InPhase(sys: System, id: Id, phase: Phase) {
    id in sys.tasks && sys.tasks[id].phase == phase
  }

  predicate Enabled(sys: System, ev: Event) {
    match ev
    case JoinQueue(id, _) => id !in sys.tasks
    case Arm(id) => InPhase(sys, id, Starting)
    case Check(id) => id in sys.tasks && sys.tasks[id].phase.Armed?
    case Wake(id) => InPhase(sys, id, Parked(true))
    case DropPermit(id) => InPhase(sys, id, Holding)
    case SetLimits(_, _) => true
    case SetOrder(_) => true
    case Broadcast => sys.pending > 0
  }

  function SetPhase(sys: System, id: Id, phase: Phase): System
    requires id in sys.tasks
  {
    sys.(tasks := sys.tasks[id := sys.tasks[id].(phase := phase)])
  }

  ghost function GrantIndex(s: State, id: Id): (i: nat)
    requires s.Grants(id)
    ensures s.FirstRunnable(i) && s.waiting[i].id == id
  {
    var i :| 0 <= i < |s.waiting| && s.FirstRunnable(i) && s.waiting[i].id == id;
    i
  }

  ghost function Apply(sys: System, ev: Event): System
    requires Enabled(sys, ev)
  {
    match ev
    case JoinQueue(id, endpoint) =>
      sys.(sched := Joined(sys.sched, id, endpoint), tasks := sys.tasks[id := Task(endpoint, Starting)])
    case Arm(id) => SetPhase(sys, id, Armed(false))
    case Check(id) =>
      if sys.sched.Grants(id) then
        SetPhase(sys, id, Holding).(
          sched := Granted(sys.sched, GrantIndex(sys.sched, id), sys.tasks[id].endpoint))
      else
        SetPhase(sys, id, Parked(sys.tasks[id].phase.fired))
    case Wake(id) => SetPhase(sys, id, Starting)
    case DropPermit(id) =>
      System(Released(sys.sched, sys.tasks[id].endpoint), sys.tasks - {id}, sys.pending + 1)
    case SetLimits(global, perEndpoint) =>
      System(Limited(sys.sched, global, perEndpoint), sys.tasks, sys.pending + 1)
    case SetOrder(ids) =>
      System(Reordered(sys.sched, ids), sys.tasks, sys.pending + 1)
    case Broadcast =>
      System(sys.sched, NotifyAll(sys.tasks), sys.pending - 1)
  }

  /** Every event is possible when its turn comes. */
  ghost predicate Legal(sys: System, run: seq<Event>)
    decreases run
  {
    run == [] || (Enabled(sys, run[0]) && Legal(Apply(sys, run[0]), run[1..]))
  }

  ghost function After(sys: System, run: seq<Event>): System
    requires Legal(sys, run)
    decreases run
  {
    if run == [] then sys else After(Apply(sys, run[0]), run[1..])
  }

  lemma {:induction false} RunsCompose(sys: System, first: seq<Event>, second: seq<Event>)
    requires Legal(sys, first) && Legal(After(sys, first), second)
    ensures Legal(sys, first + second)
    ensures After(sys, first + second) == After(After(sys, first), second)
    decreases first
  {
    if first == [] {
      assert first + second == second;
    } else {
      assert (first + second)[1..] == first[1..] + second;
      RunsCompose(Apply(sys, first[0]), first[1..], second);
    }
  }

  ghost predicate Reachable(sys: System) {
    exists global: nat, perEndpoint: nat, run ::
      var start := System(Initial(global, perEndpoint), map[], 0);
      Legal(start, run) && sys == After(start, run)
  }

  // ---------------------------------------------------------------------------------------------
  // What every step keeps

  function Holders(tasks: map<Id, Task>): set<Id> {
    set id | id in tasks && tasks[id].phase == Holding
  }

  function HoldersOf(tasks: map<Id, Task>, endpoint: string): set<Id> {
    set id | id in tasks && tasks[id] == Task(endpoint, Holding)
  }

  ghost function Sum<K>(counts: map<K, nat>): nat {
    if counts == map[] then 0
    else
      var e :| e in counts;
      counts[e] + Sum(counts - {e})
  }

  lemma {:induction false} SumOfRemoval<K>(counts: map<K, nat>, e: K)
    requires e in counts
    ensures Sum(counts) == counts[e] + Sum(counts - {e})
  {
    var f :| f in counts && Sum(counts) == counts[f] + Sum(counts - {f});
    if e != f {
      SumOfRemoval(counts - {f}, e);
      SumOfRemoval(counts - {e}, f);
      assert counts - {f} - {e} == counts - {e} - {f};
    }
  }

  lemma SumOfUpdate<K>(counts: map<K, nat>, e: K, n: nat)
    ensures Sum(counts[e := n]) == Sum(counts - {e}) + n
  {
    SumOfRemoval(counts[e := n], e);
    assert counts[e := n] - {e} == counts - {e};
  }

  /** The counters are exactly the live permits. */
  ghost predicate CountsMatch(s: State, tasks: map<Id, Task>) {
    && s.activeGlobal == |Holders(tasks)|
    && s.activeGlobal == Sum(s.activeByEndpoint)
    && (forall e :: s.Active(e) == |HoldersOf(tasks, e)|)
    && (forall e :: e in s.activeByEndpoint ==> s.activeByEndpoint[e] > 0)
  }

  function Waiters(tasks: map<Id, Task>): set<Waiter> {
    set id | id in tasks && tasks[id].phase != Holding :: Waiter(id, tasks[id].endpoint)
  }

  /** The queue lists each waiting task exactly once, under its own endpoint, and nothing else. */
  ghost predicate QueueMatches(sys: System) {
    multiset(sys.sched.waiting) == multiset(Waiters(sys.tasks))
  }

  /** A head waiter that sleeps has a live permit or a broadcast to wait for. */
  predicate HeadIsSafe(sys: System) {
    (sys.sched.waiting != [] && InPhase(sys, sys.sched.waiting[0].id, Parked(false)))
    ==> Holders(sys.tasks) != {} || sys.pending > 0
  }

  ghost predicate Inv(sys: System) {
    && sys.sched.globalLimit >= 1 && sys.sched.endpointLimit >= 1
    && CountsMatch(sys.sched, sys.tasks)
    && QueueMatches(sys)
    && HeadIsSafe(sys)
  }

  // Broadcasting changes no permit and no queue entry, and leaves nobody parked without a wake-up.
  lemma NotifyAllKeeps(tasks: map<Id, Task>)
    ensures Holders(NotifyAll(tasks)) == Holders(tasks)
    ensures forall e :: HoldersOf(NotifyAll(tasks), e) == HoldersOf(tasks, e)
    ensures Waiters(NotifyAll(tasks)) == Waiters(tasks)
    ensures forall id :: id in tasks ==> NotifyAll(tasks)[id].phase != Parked(false)
  {
    WaitersAgree(tasks, NotifyAll(tasks));
  }

  lemma WaitersAgree(tasks: map<Id, Task>, tasks': map<Id, Task>)
    requires tasks'.Keys == tasks.Keys
    requires forall id :: id in tasks ==>
      tasks'[id].endpoint == tasks[id].endpoint && (tasks'[id].phase == Holding <==> tasks[id].phase == Holding)
    ensures Waiters(tasks') == Waiters(tasks)
  {
    forall w | w in Waiters(tasks) ensures w in Waiters(tasks') {
      assert tasks'[w.id].phase != Holding;
    }
    forall w | w in Waiters(tasks') ensures w in Waiters(tasks) {
      assert tasks[w.id].phase != Holding;
    }
  }

  lemma PhaseChangeKeeps(tasks: map<Id, Task>, id: Id, phase: Phase)
    requires id in tasks && tasks[id].phase != Holding && phase != Holding
    ensures var tasks' := tasks[id := tasks[id].(phase := phase)];
            && Holders(tasks') == Holders(tasks)
            && Waiters(tasks') == Waiters(tasks)
            && forall e :: HoldersOf(tasks', e) == HoldersOf(tasks, e)
  {
    var tasks' := tasks[id := tasks[id].(phase := phase)];
    WaitersAgree(tasks, tasks');
  }

  lemma HoldingAdds(tasks: map<Id, Task>, id: Id, endpoint: string)
    requires id in tasks ==> tasks[id].phase != Holding
    ensures var tasks' := tasks[id := Task(endpoint, Holding)];
            && id !in Holders(tasks) && id !in HoldersOf(tasks, endpoint)
            && Holders(tasks') == Holders(tasks) + {id}
            && HoldersOf(tasks', endpoint) == HoldersOf(tasks, endpoint) + {id}
            && forall e :: e != endpoint ==> HoldersOf(tasks', e) == HoldersOf(tasks, e)
  {
  }

  lemma GrantKeepsCounts(s: State, tasks: map<Id, Task>, id: Id, index: nat, endpoint: string)
    requires CountsMatch(s, tasks) && index < |s.waiting|
    requires id in tasks ==> tasks[id].phase != Holding
    ensures CountsMatch(Granted(s, index, endpoint), tasks[id := Task(endpoint, Holding)])
  {
    HoldingAdds(tasks, id, endpoint);
    SumOfOneMore(s.activeByEndpoint, endpoint, s.Active(endpoint));
  }

  lemma SumOfOneMore(counts: map<string, nat>, endpoint: string, count: nat)
    requires count == if endpoint in counts then counts[endpoint] else 0
    ensures Sum(counts[endpoint := count + 1]) == Sum(counts) + 1
  {
    SumOfUpdate(counts, endpoint, count + 1);
    if endpoint in counts {
      SumOfRemoval(counts, endpoint);
    } else {
      assert counts - {endpoint} == counts;
    }
  }

  /** Both saturating subtractions of a release subtract exactly one. */
  lemma ReleaseKeepsCounts(s: State, tasks: map<Id, Task>, id: Id)
    requires CountsMatch(s, tasks) && id in tasks && tasks[id].phase == Holding
    ensures var s' := Released(s, tasks[id].endpoint);
            && CountsMatch(s', tasks - {id})
            && s.activeGlobal == s'.activeGlobal + 1
            && s.Active(tasks[id].endpoint) == s'.Active(tasks[id].endpoint) + 1
  {
    var endpoint := tasks[id].endpoint;
    var rest := tasks - {id};
    assert rest[id := Task(endpoint, Holding)] == tasks;
    HoldingAdds(rest, id, endpoint);
    assert |HoldersOf(tasks, endpoint)| > 0;
    SumOfOneLess(s.activeByEndpoint, endpoint);
  }

  lemma SumOfOneLess(counts: map<string, nat>, endpoint: string)
    requires endpoint in counts && counts[endpoint] > 0
    ensures Sum(counts[endpoint := counts[endpoint] - 1]) == Sum(counts) - 1
    ensures counts[endpoint] == 1 ==> Sum(counts - {endpoint}) == Sum(counts) - 1
  {
    SumOfRemoval(counts, endpoint);
    SumOfUpdate(counts, endpoint, counts[endpoint] - 1);
  }

  lemma ReorderingPermutes(s: State, ids: seq<Id>)
    ensures multiset(Reordered(s, ids).waiting) == multiset(s.waiting)
  {
    StableSortIsStable(s.waiting, (w: Waiter) => Rank(ids, w.id));
  }

  lemma QueuedIsATask(sys: System, w: Waiter)
    requires QueueMatches(sys) && w in sys.sched.waiting
    ensures w.id in sys.tasks && sys.tasks[w.id].phase != Holding && sys.tasks[w.id].endpoint == w.endpoint
  {
    assert w in multiset(sys.sched.waiting);
    assert w in Waiters(sys.tasks);
  }

  lemma NewTaskWaits(tasks: map<Id, Task>, id: Id, endpoint: string)
    requires id !in tasks
    ensures var tasks' := tasks[id := Task(endpoint, Starting)];
            && Waiter(id, endpoint) !in Waiters(tasks)
            && Waiters(tasks') == Waiters(tasks) + {Waiter(id, endpoint)}
            && Holders(tasks') == Holders(tasks)
            && forall e :: HoldersOf(tasks', e) == HoldersOf(tasks, e)
  {
    var tasks' := tasks[id := Task(endpoint, Starting)];
    forall x | x in Waiters(tasks) ensures x in Waiters(tasks') {
      assert tasks'[x.id].phase != Holding;
    }
    assert tasks'[id].phase != Holding;
    forall x | x in Waiters(tasks') ensures x in Waiters(tasks) + {Waiter(id, endpoint)} {
      assert x == Waiter(id, endpoint) || tasks[x.id].phase != Holding;
    }
  }

  lemma HolderStopsWaiting(tasks: map<Id, Task>, id: Id)
    requires id in tasks && tasks[id].phase != Holding
    ensures var w := Waiter(id, tasks[id].endpoint);
            && w in Waiters(tasks)
            && Waiters(tasks[id := tasks[id].(phase := Holding)]) == Waiters(tasks) - {w}
  {
    var w := Waiter(id, tasks[id].endpoint);
    var tasks' := tasks[id := tasks[id].(phase := Holding)];
    forall x | x in Waiters(tasks) - {w} ensures x in Waiters(tasks') {
      assert x.id != id && tasks'[x.id].phase != Holding;
    }
    forall x | x in Waiters(tasks') ensures x in Waiters(tasks) - {w} {
      assert x.id != id && tasks[x.id].phase != Holding;
    }
  }

  lemma RemoveAtRemovesOne<T>(xs: seq<T>, index: nat)
    requires index < |xs|
    ensures multiset(RemoveAt(xs, index)) == multiset(xs) - multiset{xs[index]}
  {
    assert xs == xs[..index] + [xs[index]] + xs[index + 1..];
  }

  lemma JoinKeepsInv(sys: System, id: Id, endpoint: string)
    requires Inv(sys) && id !in sys.tasks
    ensures Inv(Apply(sys, JoinQueue(id, endpoint)))
  {
    if sys.sched.IsWaiting(id) {
      var i :| 0 <= i < |sys.sched.waiting| && sys.sched.waiting[i].id == id;
      QueuedIsATask(sys, sys.sched.waiting[i]);
      assert false;
    }
    NewTaskWaits(sys.tasks, id, endpoint);
  }

  lemma GrantKeepsInv(sys: System, id: Id)
    requires Inv(sys) && Enabled(sys, Check(id)) && sys.sched.Grants(id)
    ensures Inv(Apply(sys, Check(id)))
  {
    var index := GrantIndex(sys.sched, id);
    QueuedIsATask(sys, sys.sched.waiting[index]);
    GrantKeepsCounts(sys.sched, sys.tasks, id, index, sys.tasks[id].endpoint);
    HolderStopsWaiting(sys.tasks, id);
    RemoveAtRemovesOne(sys.sched.waiting, index);
    assert id in Holders(Apply(sys, Check(id)).tasks);
  }

  /** A check that fails at the head of the queue proves that somebody holds a permit. */
  lemma ParkKeepsInv(sys: System, id: Id)
    requires Inv(sys) && Enabled(sys, Check(id)) && !sys.sched.Grants(id)
    ensures Inv(Apply(sys, Check(id)))
  {
    PhaseChangeKeeps(sys.tasks, id, Parked(sys.tasks[id].phase.fired));
    if sys.sched.waiting != [] && sys.sched.waiting[0].id == id && Holders(sys.tasks) == {} {
      IdleSystemHasRoom(sys, sys.sched.waiting[0].endpoint);
      assert sys.sched.FirstRunnable(0);
      assert false;
    }
  }

  lemma IdleSystemHasRoom(sys: System, endpoint: string)
    requires Inv(sys) && Holders(sys.tasks) == {}
    ensures sys.sched.HasRoom(endpoint)
  {
    assert HoldersOf(sys.tasks, endpoint) <= Holders(sys.tasks);
  }

  lemma DropKeepsInv(sys: System, id: Id)
    requires Inv(sys) && Enabled(sys, DropPermit(id))
    ensures Inv(Apply(sys, DropPermit(id)))
  {
    ReleaseKeepsCounts(sys.sched, sys.tasks, id);
    var rest := sys.tasks - {id};
    assert Waiters(rest) == Waiters(sys.tasks) by {
      forall x | x in Waiters(sys.tasks) ensures x in Waiters(rest) {
        assert rest[x.id].phase != Holding;
      }
      forall x | x in Waiters(rest) ensures x in Waiters(sys.tasks) {
        assert sys.tasks[x.id].phase != Holding;
      }
    }
  }

  lemma StepKeepsInv(sys: System, ev: Event)
    requires Inv(sys) && Enabled(sys, ev)
    ensures Inv(Apply(sys, ev))
  {
    match ev
    case JoinQueue(id, endpoint) => JoinKeepsInv(sys, id, endpoint);
    case Arm(id) => PhaseChangeKeeps(sys.tasks, id, Armed(false));
    case Check(id) =>
      if sys.sched.Grants(id) {
        GrantKeepsInv(sys, id);
      } else {
        ParkKeepsInv(sys, id);
      }
    case Wake(id) => PhaseChangeKeeps(sys.tasks, id, Starting);
    case DropPermit(id) => DropKeepsInv(sys, id);
    case SetLimits(_, _) =>
    case SetOrder(ids) => ReorderingPermutes(sys.sched, ids);
    case Broadcast => NotifyAllKeeps(sys.tasks);
  }

  lemma {:induction false} RunKeepsInv(sys: System, run: seq<Event>)
    requires Inv(sys) && Legal(sys, run)
    ensures Inv(After(sys, run))
    decreases run
  {
    if run == [] {
    } else {
      StepKeepsInv(sys, run[0]);
      RunKeepsInv(Apply(sys, run[0]), run[1..]);
    }
  }

  lemma ReachableInv(sys: System)
    requires Reachable(sys)
    ensures Inv(sys)
  {
    var global: nat, perEndpoint: nat, run :|
      var start := System(Initial(global, perEndpoint), map[], 0);
      Legal(start, run) && sys == After(start, run);
    RunKeepsInv(System(Initial(global, perEndpoint), map[], 0), run);
  }

  // ---------------------------------------------------------------------------------------------
  // Main results

  /** In every reachable state the counters are the live permits: the global one counts them all and
      is the sum of the positive per-endpoint ones. Releasing any of them subtracts exactly one. */
  lemma CountsAreLivePermits(sys: System)
    requires Reachable(sys)
    ensures sys.sched.activeGlobal == |Holders(sys.tasks)| == Sum(sys.sched.activeByEndpoint)
    ensures forall e :: sys.sched.Active(e) == |HoldersOf(sys.tasks, e)|
    ensures forall e :: e in sys.sched.activeByEndpoint ==> sys.sched.activeByEndpoint[e] > 0
    ensures forall id :: id in Holders(sys.tasks) ==>
      var s' := Released(sys.sched, sys.tasks[id].endpoint);
      && sys.sched.activeGlobal == s'.activeGlobal + 1
      && sys.sched.Active(sys.tasks[id].endpoint) == s'.Active(sys.tasks[id].endpoint) + 1
  {
    ReachableInv(sys);
    forall id | id in Holders(sys.tasks)
      ensures var s' := Released(sys.sched, sys.tasks[id].endpoint);
              && sys.sched.activeGlobal == s'.activeGlobal + 1
              && sys.sched.Active(sys.tasks[id].endpoint) == s'.Active(sys.tasks[id].endpoint) + 1
    {
      ReleaseKeepsCounts(sys.sched, sys.tasks, id);
    }
  }

  /** A grant stays inside the limits in force, and whatever it overtakes in the queue is held back
      by its own full endpoint. */
  lemma GrantRespectsLimitsAndOrder(sys: System, id: Id)
    requires Reachable(sys) && Enabled(sys, Check(id))
    requires InPhase(Apply(sys, Check(id)), id, Holding)
    ensures var s, s' := sys.sched, Apply(sys, Check(id)).sched;
            && s'.activeGlobal <= s'.globalLimit
            && s'.Active(sys.tasks[id].endpoint) <= s'.endpointLimit
            && exists i :: 0 <= i < |s.waiting| && s.waiting[i] == Waiter(id, sys.tasks[id].endpoint)
                 && s'.waiting == RemoveAt(s.waiting, i)
                 && forall j :: 0 <= j < i ==> s.Active(s.waiting[j].endpoint) >= s.endpointLimit
  {
    ReachableInv(sys);
    assert sys.sched.Grants(id);
    var i := GrantIndex(sys.sched, id);
    QueuedIsATask(sys, sys.sched.waiting[i]);
  }

  /** Who is let in, told by the numbers: the first waiter for whom a permit is left, of all and of its endpoint. */
  lemma GrantedByTheNumbers(s: State, id: Id)
    requires s.endpointLimit >= 1
    ensures s.Grants(id) <==>
              exists i :: 0 <= i < |s.waiting| && s.waiting[i].id == id && s.activeGlobal < s.globalLimit
                && (s.waiting[i].endpoint in s.activeByEndpoint ==>
                      s.activeByEndpoint[s.waiting[i].endpoint] < s.endpointLimit)
                && (forall j :: 0 <= j < i ==>
                      (s.waiting[j].endpoint in s.activeByEndpoint
                       && s.activeByEndpoint[s.waiting[j].endpoint] >= s.endpointLimit))
  {
    if s.Grants(id) {
      var i := GrantIndex(s, id);
      assert 0 <= i < |s.waiting| && s.waiting[i].id == id;
    } else {
      assert forall i :: 0 <= i < |s.waiting| && s.waiting[i].id == id ==> !s.FirstRunnable(i);
    }
  }

  /** As long as nobody sets limits they stay. */
  lemma {:induction false} LimitsStay(sys: System, run: seq<Event>)
    requires Legal(sys, run) && forall i :: 0 <= i < |run| ==> !run[i].SetLimits?
    ensures After(sys, run).sched.globalLimit == sys.sched.globalLimit
    ensures After(sys, run).sched.endpointLimit == sys.sched.endpointLimit
    decreases run
  {
    if run == [] {
    } else {
      LimitsStay(Apply(sys, run[0]), run[1..]);
    }
  }

  /** Along every run the limits in force are those that were set last, each of them at least one. */
  lemma {:induction false} LimitsInForce(sys: System, run: seq<Event>, last: nat)
    requires Legal(sys, run) && last < |run| && run[last].SetLimits?
    requires forall i :: last < i < |run| ==> !run[i].SetLimits?
    ensures After(sys, run).sched.globalLimit == (if run[last].global == 0 then 1 else run[last].global)
    ensures After(sys, run).sched.endpointLimit == (if run[last].perEndpoint == 0 then 1 else run[last].perEndpoint)
    decreases run
  {
    if last == 0 {
      LimitsStay(Apply(sys, run[0]), run[1..]);
    } else {
      LimitsInForce(Apply(sys, run[0]), run[1..], last - 1);
    }
  }

  /** A notification that never comes is never needed: with waiters in the queue, either a permit is
      live, and its release wakes everybody, or the next check of the head of the queue succeeds, and the head is
      awake or already woken, or a broadcast is on its way to wake it. */
  lemma DeadlockFree(sys: System)
    requires Reachable(sys) && sys.sched.waiting != []
    ensures var head := sys.sched.waiting[0].id;
            || Holders(sys.tasks) != {}
            || (head in sys.tasks && sys.sched.Grants(head)
                && (sys.tasks[head].phase != Parked(false) || sys.pending > 0))
  {
    ReachableInv(sys);
    QueuedIsATask(sys, sys.sched.waiting[0]);
    if Holders(sys.tasks) == {} {
      IdleSystemHasRoom(sys, sys.sched.waiting[0].endpoint);
      assert sys.sched.FirstRunnable(0);
    }
  }

  predicate LimitsStayBelow(run: seq<Event>, global: nat, perEndpoint: nat) {
    forall i :: 0 <= i < |run| && run[i].SetLimits? ==>
      AtLeastOne(run[i].global) <= global && AtLeastOne(run[i].perEndpoint) <= perEndpoint
  }

  function Max(a: nat, b: nat): nat {
    if a < b then b else a
  }

  lemma StepRespectsCeiling(sys: System, ev: Event, endpoint: string)
    requires Inv(sys) && Enabled(sys, ev)
    ensures var s, s' := sys.sched, Apply(sys, ev).sched;
            && (s'.activeGlobal <= s.activeGlobal || s'.activeGlobal <= s.globalLimit)
            && (s'.Active(endpoint) <= s.Active(endpoint) || s'.Active(endpoint) <= s.endpointLimit)
  {
    if ev.Check? && sys.sched.Grants(ev.id) {
      QueuedIsATask(sys, sys.sched.waiting[GrantIndex(sys.sched, ev.id)]);
    }
  }

  /** Along every run whose limits stay at or below a bound, no count ever rises above that bound; one
      that starts above it, because the limits were just lowered, never rises above where it started. */
  lemma {:induction false} CountsObeyLimits(sys: System, run: seq<Event>, global: nat, perEndpoint: nat,
                                            endpoint: string)
    requires Inv(sys) && Legal(sys, run) && LimitsStayBelow(run, global, perEndpoint)
    requires sys.sched.globalLimit <= global && sys.sched.endpointLimit <= perEndpoint
    ensures After(sys, run).sched.activeGlobal <= Max(sys.sched.activeGlobal, global)
    ensures After(sys, run).sched.Active(endpoint) <= Max(sys.sched.Active(endpoint), perEndpoint)
    decreases run
  {
    if run == [] {
    } else {
      StepRespectsCeiling(sys, run[0], endpoint);
      StepKeepsInv(sys, run[0]);
      CountsObeyLimits(Apply(sys, run[0]), run[1..], global, perEndpoint, endpoint);
    }
  }

  predicate OwnStep(ev: Event, id: Id) {
    ev == Arm(id) || ev == Check(id) || ev == Wake(id)
  }

  /** The run consists of the head waiter's own steps and ends with its permit granted. */
  ghost predicate GrantsHead(sys: System, run: seq<Event>) {
    && sys.sched.waiting != []
    && Legal(sys, run)
    && (forall i :: 0 <= i < |run| ==> OwnStep(run[i], sys.sched.waiting[0].id))
    && InPhase(After(sys, run), sys.sched.waiting[0].id, Holding)
    && After(sys, run).sched.waiting == sys.sched.waiting[1..]
  }

  lemma PrependOwnStep(sys: System, ev: Event, run: seq<Event>)
    requires Enabled(sys, ev) && sys.sched.waiting != [] && OwnStep(ev, sys.sched.waiting[0].id)
    requires Apply(sys, ev).sched == sys.sched && GrantsHead(Apply(sys, ev), run)
    ensures GrantsHead(sys, [ev] + run)
  {
    assert ([ev] + run)[1..] == run;
  }

  lemma HeadCheckGrants(sys: System)
    requires Inv(sys) && sys.sched.waiting != [] && Holders(sys.tasks) == {}
    requires sys.sched.waiting[0].id in sys.tasks && sys.tasks[sys.sched.waiting[0].id].phase.Armed?
    ensures GrantsHead(sys, [Check(sys.sched.waiting[0].id)])
  {
    var head := sys.sched.waiting[0].id;
    QueuedIsATask(sys, sys.sched.waiting[0]);
    IdleSystemHasRoom(sys, sys.sched.waiting[0].endpoint);
    assert sys.sched.FirstRunnable(0);
    assert GrantIndex(sys.sched, head) == 0;
    assert After(sys, [Check(head)]) == Apply(sys, Check(head));
  }

  function StepsToGrant(sys: System): (n: nat)
    requires sys.sched.waiting != []
    ensures n <= 3
  {
    var id := sys.sched.waiting[0].id;
    if id !in sys.tasks || sys.tasks[id].phase.Armed? then 1
    else if sys.tasks[id].phase.Starting? then 2
    else 3
  }

  /** With no permit live, the head of the queue gets one by at most three steps of its own, if it is not asleep. If it
      is, a broadcast is on its way. */
  lemma HeadAdvances(sys: System) returns (run: seq<Event>)
    requires Inv(sys) && sys.sched.waiting != [] && Holders(sys.tasks) == {}
    ensures InPhase(sys, sys.sched.waiting[0].id, Parked(false)) ==> sys.pending > 0
    ensures !InPhase(sys, sys.sched.waiting[0].id, Parked(false)) ==> GrantsHead(sys, run) && |run| == StepsToGrant(sys)
    decreases StepsToGrant(sys)
  {
    var head := sys.sched.waiting[0].id;
    QueuedIsATask(sys, sys.sched.waiting[0]);
    if sys.tasks[head].phase == Parked(false) {
      run := [];
    } else if sys.tasks[head].phase.Armed? {
      HeadCheckGrants(sys);
      run := [Check(head)];
    } else {
      var ev := if sys.tasks[head].phase == Starting then Arm(head) else Wake(head);
      PhaseChangeKeeps(sys.tasks, head, if sys.tasks[head].phase == Starting then Armed(false) else Starting);
      StepKeepsInv(sys, ev);
      var rest := HeadAdvances(Apply(sys, ev));
      PrependOwnStep(sys, ev, rest);
      run := [ev] + rest;
    }
  }

  /** Whoever has room, and is not asleep, has its permit after at most three steps of its own. */
  lemma RunnableAdvances(sys: System, id: Id) returns (run: seq<Event>)
    requires id in sys.tasks && sys.tasks[id].phase != Holding && sys.tasks[id].phase != Parked(false)
    requires sys.sched.Grants(id)
    ensures Legal(sys, run) && (forall i :: 0 <= i < |run| ==> OwnStep(run[i], id))
    ensures |run| == if sys.tasks[id].phase.Armed? then 1 else if sys.tasks[id].phase.Starting? then 2 else 3
    ensures InPhase(After(sys, run), id, Holding)
    decreases if sys.tasks[id].phase.Armed? then 0 else if sys.tasks[id].phase.Starting? then 1 else 2
  {
    var phase := sys.tasks[id].phase;
    if phase.Armed? {
      run := [Check(id)];
      assert After(sys, run) == Apply(sys, Check(id));
    } else if phase.Starting? {
      run := [Arm(id), Check(id)];
      assert run[1..] == [Check(id)];
      assert After(Apply(sys, Arm(id)), [Check(id)]) == Apply(Apply(sys, Arm(id)), Check(id));
    } else {
      var rest := RunnableAdvances(Apply(sys, Wake(id)), id);
      run := [Wake(id)] + rest;
      assert run[1..] == rest;
    }
  }

  /** The waiter is the first one in the queue whose endpoint has fewer permits than the limit. */
  predicate IsFirstBelow(s: State, i: nat, perEndpoint: nat) {
    && i < |s.waiting|
    && s.Active(s.waiting[i].endpoint) < perEndpoint
    && forall j :: 0 <= j < i ==> s.Active(s.waiting[j].endpoint) >= perEndpoint
  }

  /** Raised limits let the first waiter in that has room under them: once the broadcast is out, by steps of its own. */
  lemma RaisedLimitsAdmit(sys: System, global: nat, perEndpoint: nat, i: nat) returns (run: seq<Event>)
    requires Inv(sys) && sys.sched.activeGlobal < global && perEndpoint > 0
    requires IsFirstBelow(sys.sched, i, perEndpoint)
    ensures Legal(sys, [SetLimits(global, perEndpoint), Broadcast] + run) && |run| <= 3
    ensures forall k :: 0 <= k < |run| ==> OwnStep(run[k], sys.sched.waiting[i].id)
    ensures InPhase(After(sys, [SetLimits(global, perEndpoint), Broadcast] + run), sys.sched.waiting[i].id, Holding)
  {
    var raised := Apply(sys, SetLimits(global, perEndpoint));
    var told := Apply(raised, Broadcast);
    var id := sys.sched.waiting[i].id;
    QueuedIsATask(sys, sys.sched.waiting[i]);
    NotifyAllKeeps(raised.tasks);
    assert told.sched.FirstRunnable(i);
    run := RunnableAdvances(told, id);
    var rest := [Broadcast] + run;
    var whole := [SetLimits(global, perEndpoint), Broadcast] + run;
    assert whole[1..] == rest && rest[1..] == run;
    assert Legal(raised, rest) && After(raised, rest) == After(told, run);
    assert After(sys, whole) == After(raised, rest);
  }

  predicate DropsOnly(run: seq<Event>) {
    forall i :: 0 <= i < |run| ==> run[i].DropPermit?
  }

  lemma ReleaseAll(sys: System) returns (run: seq<Event>)
    requires Inv(sys)
    ensures DropsOnly(run) && Legal(sys, run)
    ensures Holders(After(sys, run).tasks) == {} && After(sys, run).sched.waiting == sys.sched.waiting
    decreases |Holders(sys.tasks)|
  {
    if Holders(sys.tasks) == {} {
      run := [];
    } else {
      var id :| id in Holders(sys.tasks);
      var next := Apply(sys, DropPermit(id));
      StepKeepsInv(sys, DropPermit(id));
      assert Holders(next.tasks) == Holders(sys.tasks) - {id};
      var rest := ReleaseAll(next);
      run := [DropPermit(id)] + rest;
      assert run[1..] == rest;
    }
  }

  lemma BroadcastWakesHead(sys: System) returns (run: seq<Event>)
    requires Inv(sys) && sys.sched.waiting != [] && Holders(sys.tasks) == {}
    ensures run == [] || run == [Broadcast]
    ensures Legal(sys, run) && After(sys, run).sched == sys.sched && Holders(After(sys, run).tasks) == {}
    ensures !InPhase(After(sys, run), sys.sched.waiting[0].id, Parked(false))
  {
    run := [];
    if InPhase(sys, sys.sched.waiting[0].id, Parked(false)) {
      run := [Broadcast];
      NotifyAllKeeps(sys.tasks);
      assert run[1..] == [];
    }
  }

  /** A step by those who are there already. */
  predicate IsOwnStep(ev: Event) {
    ev.Arm? || ev.Check? || ev.Wake? || ev.DropPermit? || ev.Broadcast?
  }

  predicate NoNewcomers(run: seq<Event>) {
    forall i :: 0 <= i < |run| ==> IsOwnStep(run[i])
  }

  lemma GrantNext(sys: System) returns (run: seq<Event>)
    requires Inv(sys) && sys.sched.waiting != [] && Holders(sys.tasks) == {}
    ensures NoNewcomers(run) && Legal(sys, run) && After(sys, run).sched.waiting == sys.sched.waiting[1..]
  {
    var wake := BroadcastWakesHead(sys);
    RunKeepsInv(sys, wake);
    var grant := HeadAdvances(After(sys, wake));
    RunsCompose(sys, wake, grant);
    run := wake + grant;
  }

  /** From every reachable state the queue can be emptied by releases, by the broadcasts that follow them and by the
      waiters' own steps: no lost wake-up ever leaves a worker waiting for good. */
  lemma QueueCanDrain(sys: System) returns (run: seq<Event>)
    requires Inv(sys)
    ensures NoNewcomers(run) && Legal(sys, run)
    ensures After(sys, run).sched.waiting == []
    decreases |sys.sched.waiting|
  {
    if sys.sched.waiting == [] {
      run := [];
    } else {
      var drops := ReleaseAll(sys);
      RunKeepsInv(sys, drops);
      var grant := GrantNext(After(sys, drops));
      RunKeepsInv(After(sys, drops), grant);
      var rest := QueueCanDrain(After(After(sys, drops), grant));
      RunsCompose(After(sys, drops), grant, rest);
      RunsCompose(sys, drops, grant + rest);
      run := drops + (grant + rest);
    }
  }

  // ---------------------------------------------------------------------------------------------
  // Every run drains

  /** How many steps a task can still take before it sleeps without a wake-up. */
  function PhaseRank(phase: Phase): nat {
    match phase
    case Holding => 0
    case Parked(fired) => if fired then 3 else 0
    case Armed(fired) => if fired then 4 else 1
    case Starting => 2
  }

  function Ranks(tasks: map<Id, Task>): map<Id, nat> {
    map id | id in tasks :: PhaseRank(tasks[id].phase)
  }

  /** An upper bound for the steps that up to n tasks can take: a broadcast may set each of them back by three, a
      dropped permit brings a broadcast, and a grant brings a permit. */
  ghost function Work(sys: System, n: nat): nat {
    Total(|sys.sched.waiting|, |Holders(sys.tasks)|, sys.pending, Sum(Ranks(sys.tasks)), 3 * n + 1)
  }

  function Total(waiting: nat, holders: nat, pending: nat, ranks: nat, broadcast: nat): nat {
    waiting * (broadcast + 2) + holders * (broadcast + 1) + pending * broadcast + ranks
  }

  lemma RankChange(tasks: map<Id, Task>, id: Id, task: Task)
    requires id in tasks
    ensures Sum(Ranks(tasks[id := task])) + PhaseRank(tasks[id].phase) == Sum(Ranks(tasks)) + PhaseRank(task.phase)
  {
    var ranks := Ranks(tasks);
    assert Ranks(tasks[id := task]) == ranks[id := PhaseRank(task.phase)];
    SumOfRemoval(ranks, id);
    SumOfUpdate(ranks, id, PhaseRank(task.phase));
  }

  predicate GrowsByThree<K>(a: map<K, nat>, b: map<K, nat>) {
    a.Keys == b.Keys && forall k :: k in a ==> b[k] <= a[k] + 3
  }

  lemma {:induction false} SumGrows<K>(a: map<K, nat>, b: map<K, nat>)
    requires GrowsByThree(a, b)
    ensures Sum(b) <= Sum(a) + 3 * |a|
    decreases |a|
  {
    if a == map[] {
      assert b == map[];
    } else {
      var k :| k in a;
      SumOfRemoval(a, k);
      SumOfRemoval(b, k);
      OneLess(a, k);
      assert GrowsByThree(a - {k}, b - {k});
      SumGrows(a - {k}, b - {k});
    }
  }

  lemma OneLess<K>(a: map<K, nat>, k: K)
    requires k in a
    ensures |a - {k}| == |a| - 1
  {
    assert (a - {k}).Keys == a.Keys - {k};
    assert |a.Keys - {k}| == |a.Keys| - 1;
  }

  lemma BroadcastRanks(tasks: map<Id, Task>)
    ensures Sum(Ranks(NotifyAll(tasks))) <= Sum(Ranks(tasks)) + 3 * |tasks|
  {
    SumGrows(Ranks(tasks), Ranks(NotifyAll(tasks)));
    assert Ranks(tasks).Keys == tasks.Keys;
  }

  lemma GrantTotal(waiting: nat, holders: nat, pending: nat, ranks: nat, fewer: nat, broadcast: nat)
    requires waiting > 0 && fewer <= ranks
    ensures Total(waiting - 1, holders + 1, pending, fewer, broadcast)
            < Total(waiting, holders, pending, ranks, broadcast)
  {
    assert (waiting - 1) * (broadcast + 2) + (broadcast + 2) == waiting * (broadcast + 2);
    assert (holders + 1) * (broadcast + 1) == holders * (broadcast + 1) + (broadcast + 1);
  }

  lemma GrantNumbers(sys: System, after: System, id: Id)
    requires Inv(sys) && Enabled(sys, Check(id)) && sys.sched.Grants(id) && after == Apply(sys, Check(id))
    ensures after.pending == sys.pending && |after.sched.waiting| == |sys.sched.waiting| - 1
    ensures |Holders(after.tasks)| == |Holders(sys.tasks)| + 1 && Sum(Ranks(after.tasks)) <= Sum(Ranks(sys.tasks))
  {
    var task := Task(sys.tasks[id].endpoint, Holding);
    assert after.tasks == sys.tasks[id := task];
    HoldingAdds(sys.tasks, id, sys.tasks[id].endpoint);
    RankChange(sys.tasks, id, task);
  }

  lemma GrantTakesWork(sys: System, id: Id, n: nat)
    requires Inv(sys) && Enabled(sys, Check(id)) && sys.sched.Grants(id)
    ensures Work(Apply(sys, Check(id)), n) < Work(sys, n)
  {
    var after := Apply(sys, Check(id));
    GrantNumbers(sys, after, id);
    GrantTotal(|sys.sched.waiting|, |Holders(sys.tasks)|, sys.pending, Sum(Ranks(sys.tasks)), Sum(Ranks(after.tasks)),
               3 * n + 1);
  }

  lemma PhaseTakesWork(sys: System, id: Id, phase: Phase, n: nat)
    requires id in sys.tasks && sys.tasks[id].phase != Holding && phase != Holding
    requires PhaseRank(phase) < PhaseRank(sys.tasks[id].phase)
    ensures Work(SetPhase(sys, id, phase), n) < Work(sys, n)
  {
    PhaseChangeKeeps(sys.tasks, id, phase);
    RankChange(sys.tasks, id, sys.tasks[id].(phase := phase));
  }

  lemma DropTakesWork(sys: System, id: Id, n: nat)
    requires Inv(sys) && Enabled(sys, DropPermit(id))
    ensures Work(Apply(sys, DropPermit(id)), n) < Work(sys, n)
  {
    var rest := sys.tasks - {id};
    assert Holders(rest) == Holders(sys.tasks) - {id};
    assert Ranks(rest) == Ranks(sys.tasks) - {id};
    SumOfRemoval(Ranks(sys.tasks), id);
  }

  lemma BroadcastTotal(waiting: nat, holders: nat, pending: nat, ranks: nat, more: nat, broadcast: nat)
    requires pending > 0 && more < ranks + broadcast
    ensures Total(waiting, holders, pending - 1, more, broadcast) < Total(waiting, holders, pending, ranks, broadcast)
  {
    assert (pending - 1) * broadcast + broadcast == pending * broadcast;
  }

  lemma BroadcastTakesWork(sys: System, n: nat)
    requires Enabled(sys, Broadcast) && |sys.tasks| <= n
    ensures Work(Apply(sys, Broadcast), n) < Work(sys, n)
  {
    NotifyAllKeeps(sys.tasks);
    BroadcastRanks(sys.tasks);
    BroadcastTotal(|sys.sched.waiting|, |Holders(sys.tasks)|, sys.pending, Sum(Ranks(sys.tasks)),
                   Sum(Ranks(NotifyAll(sys.tasks))), 3 * n + 1);
  }

  /** Whatever step is taken, less work is left. */
  lemma StepTakesWork(sys: System, ev: Event, n: nat)
    requires Inv(sys) && Enabled(sys, ev) && IsOwnStep(ev) && |sys.tasks| <= n
    ensures Work(Apply(sys, ev), n) < Work(sys, n) && |Apply(sys, ev).tasks| <= n
  {
    match ev
    case Arm(id) => PhaseTakesWork(sys, id, Armed(false), n);
    case Wake(id) => PhaseTakesWork(sys, id, Starting, n);
    case Check(id) =>
      if sys.sched.Grants(id) {
        GrantTakesWork(sys, id, n);
      } else {
        PhaseTakesWork(sys, id, Parked(sys.tasks[id].phase.fired), n);
      }
    case DropPermit(id) => DropTakesWork(sys, id, n);
    case Broadcast => BroadcastTakesWork(sys, n);
    TasksDoNotGrow(sys, ev);
  }

  lemma TasksDoNotGrow(sys: System, ev: Event)
    requires Enabled(sys, ev) && IsOwnStep(ev)
    ensures |Apply(sys, ev).tasks| <= |sys.tasks|
  {
    var after := Apply(sys, ev).tasks;
    assert after.Keys <= sys.tasks.Keys;
    SubsetIsSmaller(after.Keys, sys.tasks.Keys);
  }

  /** Without newcomers and changes of limits or order, no run has more steps than there is work at its start. */
  lemma {:induction false} RunsAreBounded(sys: System, run: seq<Event>, n: nat)
    requires Inv(sys) && Legal(sys, run) && NoNewcomers(run) && |sys.tasks| <= n
    ensures |run| + Work(After(sys, run), n) <= Work(sys, n)
    decreases run
  {
    if run == [] {
    } else {
      StepTakesWork(sys, run[0], n);
      StepKeepsInv(sys, run[0]);
      RunsAreBounded(Apply(sys, run[0]), run[1..], n);
    }
  }

  /** Nobody can take a step any more. */
  ghost predicate IsStill(sys: System) {
    forall ev :: IsOwnStep(ev) ==> !Enabled(sys, ev)
  }

  /** Every run that goes on as long as it can, in whatever order, ends with an empty queue. */
  lemma MaximalRunsDrain(sys: System, run: seq<Event>)
    requires Inv(sys) && Legal(sys, run) && NoNewcomers(run) && IsStill(After(sys, run))
    ensures After(sys, run).sched.waiting == [] && Holders(After(sys, run).tasks) == {}
    ensures |run| <= Work(sys, |sys.tasks|)
  {
    RunKeepsInv(sys, run);
    RunsAreBounded(sys, run, |sys.tasks|);
    StillIsDrained(After(sys, run));
  }

  /** With nobody holding a permit, the head of the queue can take a step, or a broadcast is to come. */
  lemma SomebodyCanStep(sys: System) returns (ev: Event)
    requires Inv(sys) && sys.sched.waiting != [] && Holders(sys.tasks) == {}
    ensures IsOwnStep(ev) && Enabled(sys, ev)
  {
    var head := sys.sched.waiting[0].id;
    QueuedIsATask(sys, sys.sched.waiting[0]);
    ev := match sys.tasks[head].phase {
      case Starting => Arm(head)
      case Armed(_) => Check(head)
      case Parked(fired) => if fired then Wake(head) else Broadcast
      case Holding => Broadcast
    };
  }

  lemma StillIsDrained(sys: System)
    requires Inv(sys) && IsStill(sys)
    ensures sys.sched.waiting == [] && Holders(sys.tasks) == {}
  {
    forall id ensures id !in Holders(sys.tasks) {
      assert !Enabled(sys, DropPermit(id));
    }
    if sys.sched.waiting != [] {
      var ev := SomebodyCanStep(sys);
    }
  }

  /** Being runnable is not enough to be woken: a grant removes its entry without a notification, so a
      waiter with room can be asleep while a permit is live. The run: the second of two workers checks
      first and parks, then the first one is granted its permit. */
  lemma ARunnableWaiterMaySleep() returns (sys: System)
    ensures Reachable(sys)
    ensures sys.sched.waiting == [Waiter(2, "b")] && sys.sched.Grants(2)
    ensures IsOverlooked(sys, 2) && InPhase(sys, 1, Holding)
  {
    sys := TwoWorkersQueued();
    sys := SecondWorkerParks(sys);
    sys := ReachableStep(sys, Arm(1));
    assert sys.sched.FirstRunnable(0);
    assert sys.sched.Grants(1) && GrantIndex(sys.sched, 1) == 0;
    sys := ReachableStep(sys, Check(1));
    assert sys.sched.waiting == [Waiter(2, "b")];
    assert sys.sched.FirstRunnable(0);
  }

  lemma TwoWorkersQueued() returns (sys: System)
    ensures Reachable(sys)
    ensures sys.sched == State(2, 1, 0, map[], [Waiter(1, "a"), Waiter(2, "b")])
    ensures sys.tasks == map[1 := Task("a", Starting), 2 := Task("b", Starting)] && sys.pending == 0
  {
    sys := System(Initial(2, 1), map[], 0);
    assert Legal(sys, []) && After(sys, []) == sys;
    assert Reachable(sys);
    sys := ReachableStep(sys, JoinQueue(1, "a"));
    sys := ReachableStep(sys, JoinQueue(2, "b"));
  }

  lemma SecondWorkerParks(sys: System) returns (next: System)
    requires Reachable(sys)
    requires sys.sched == State(2, 1, 0, map[], [Waiter(1, "a"), Waiter(2, "b")])
    requires sys.tasks == map[1 := Task("a", Starting), 2 := Task("b", Starting)] && sys.pending == 0
    ensures Reachable(next) && next.sched == sys.sched && next.pending == 0
    ensures next.tasks == map[1 := Task("a", Starting), 2 := Task("b", Parked(false))]
  {
    assert sys.sched.FirstRunnable(0);
    OnlyOneIsGranted(sys.sched, 0, 2);
    next := ReachableStep(sys, Arm(2));
    next := ReachableStep(next, Check(2));
  }

  lemma ReachableStep(sys: System, ev: Event) returns (next: System)
    requires Reachable(sys) && Enabled(sys, ev)
    ensures next == Apply(sys, ev) && Reachable(next)
  {
    next := Apply(sys, ev);
    var global: nat, perEndpoint: nat, run :|
      var start := System(Initial(global, perEndpoint), map[], 0);
      Legal(start, run) && sys == After(start, run);
    assert [ev][1..] == [] && After(sys, [ev]) == next;
    RunsCompose(System(Initial(global, perEndpoint), map[], 0), run, [ev]);
  }

  lemma OnlyOneIsGranted(s: State, index: nat, id: Id)
    requires s.FirstRunnable(index)
    ensures s.Grants(id) <==> s.waiting[index].id == id
  {
  }

  /** A waiter that could run sleeps, and no wake-up is on its way. */
  ghost predicate IsOverlooked(sys: System, id: Id) {
    InPhase(sys, id, Parked(false)) && sys.sched.Grants(id) && sys.pending == 0
  }

  /** No waiter is overlooked while no permit is live. */
  lemma SleepingWhileRunnableNeedsALivePermit(sys: System, id: Id)
    requires Reachable(sys) && IsOverlooked(sys, id)
    ensures Holders(sys.tasks) != {}
  {
    ReachableInv(sys);
    DeadlockFree(sys);
    OnlyOneIsGranted(sys.sched, GrantIndex(sys.sched, id), sys.sched.waiting[0].id);
  }

  /** The only step after which a waiter is newly overlooked is another one's successful check. */
  lemma OnlyAGrantOverlooks(sys: System, ev: Event, id: Id)
    requires Inv(sys) && Enabled(sys, ev) && !IsOverlooked(sys, id) && IsOverlooked(Apply(sys, ev), id)
    ensures ev.Check? && ev.id != id && sys.sched.Grants(ev.id)
  {
    match ev
    case JoinQueue(other, endpoint) => JoiningMakesNobodyRunnable(sys, other, endpoint, id);
    case Broadcast => NotifyAllKeeps(sys.tasks);
    case _ =>
  }

  lemma JoiningMakesNobodyRunnable(sys: System, other: Id, endpoint: string, id: Id)
    requires Inv(sys) && other !in sys.tasks && id in sys.tasks && Joined(sys.sched, other, endpoint).Grants(id)
    ensures sys.sched.Grants(id)
  {
    var s := Joined(sys.sched, other, endpoint);
    var i := GrantIndex(s, id);
    assert i < |sys.sched.waiting|;
    forall j | 0 <= j <= i
        ensures sys.sched.HasRoom(sys.sched.waiting[j].endpoint) <==> s.HasRoom(s.waiting[j].endpoint) {
      assert s.waiting[j] == sys.sched.waiting[j];
    }
    assert sys.sched.FirstRunnable(i);
  }

  /** The new queue is the old one rearranged: listed ids first, in the order of the list, and the
      entries of one rank - in particular all unlisted ones - in their old relative order. */
  lemma ReorderFollowsRequest(s: State, ids: seq<Id>)
    ensures var queue := Reordered(s, ids).waiting;
            && multiset(queue) == multiset(s.waiting)
            && (forall i, j :: 0 <= i < j < |queue| && queue[j].id in ids ==> queue[i].id in ids)
            && Class(queue, (w: Waiter) => Rank(ids, w.id), |ids|)
               == Class(s.waiting, (w: Waiter) => Rank(ids, w.id), |ids|)
            && (Distinct(ids) ==>
                  forall i, j, m, n ::
                    (&& 0 <= i < |queue| && 0 <= j < |queue| && 0 <= m < n < |ids|
                     && queue[i].id == ids[m] && queue[j].id == ids[n])
                    ==> i < j)
  {
    var key := (w: Waiter) => Rank(ids, w.id);
    StableSortIsStable(s.waiting, key);
    var queue := Reordered(s, ids).waiting;
    assert queue == StableSort(s.waiting, key);
    forall i, j, m, n | Distinct(ids) && 0 <= i < |queue| && 0 <= j < |queue|
                        && 0 <= m < n < |ids| && queue[i].id == ids[m] && queue[j].id == ids[n]
      ensures i < j
    {
      assert key(queue[i]) == m && key(queue[j]) == n;
    }
    forall i, j | 0 <= i < j < |queue| && queue[j].id in ids ensures queue[i].id in ids {
      assert key(queue[i]) <= key(queue[j]) < |ids|;
    }
  }
}
