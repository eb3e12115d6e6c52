/** The weak-reference lock registry of src/git/RepoLocks.cpp: any number of threads construct
    and destroy operation guards, and every interleaving of their steps is a run. */
module RepoLocks {
  import opened Common

  type Thread = nat
  type GuardId = nat
  type Key = string

  /** A recursive mutex: the one of a repository, or the one of a `GitOps` adapter. */
  datatype Lock = Repo(mutex: nat) | Ops(adapter: nat)

  /** Where a guard is between the first step of its constructor and the last of its
      destructor. Members are destroyed in reverse: adapter lock, repository lock, pointer. */
  datatype Phase =
    | Waiting      // about to enter the registry
    | Looking      // inside, about to try the slot
    | Creating     // inside, the slot was empty or expired
    | Leaving      // inside, holding a pointer
    | Owning       // outside, waiting for the repository lock
    | RepoLocked   // waiting for the adapter lock
    | Held         // constructed
    | Unwinding    // adapter lock released
    | Released     // repository lock released

  datatype Guard = Guard(thread: Thread, key: Key, adapter: nat, phase: Phase, mutex: Option<nat>)

  datatype Owner = Owner(thread: Thread, depth: nat)

  /** `registry` maps a key to its weak reference. The mutex it names is alive while some guard
      holds a pointer to it. */
  datatype State = State(
    guards: map<GuardId, Guard>,
    inside: Option<GuardId>,
    registry: map<Key, nat>,
    locks: map<Lock, Owner>,
    next: nat)

  datatype Event =
    | Begin(g: GuardId, thread: Thread, key: Key, adapter: nat)
    | Enter(g: GuardId)
    | TrySlot(g: GuardId)
    | Create(g: GuardId)
    | Leave(g: GuardId)
    | LockRepo(g: GuardId)
    | LockOps(g: GuardId)
    | UnlockOps(g: GuardId)
    | UnlockRepo(g: GuardId)
    | Drop(g: GuardId)

  predicate Alive(s: State, m: nat)
  {
    exists g :: g in s.guards && s.guards[g].mutex == Some(m)
  }

  predicate HasPointer(p: Phase)
  {
    p in {Leaving, Owning, RepoLocked, Held, Unwinding, Released}
  }

  predicate Inside(p: Phase)
  {
    p in {Looking, Creating, Leaving}
  }

  /** The locks a guard holds. */
  predicate Holds(g: Guard, l: Lock)
  {
    match l
    case Repo(m) => g.phase in {RepoLocked, Held, Unwinding} && g.mutex == Some(m)
    case Ops(a) => g.phase == Held && g.adapter == a
  }

  /** A recursive mutex lets in a thread that already owns it. */
  predicate Free(locks: map<Lock, Owner>, l: Lock, t: Thread)
  {
    l in locks ==> locks[l].thread == t
  }

  function Acquire(locks: map<Lock, Owner>, l: Lock, t: Thread): map<Lock, Owner>
  {
    locks[l := Owner(t, if l in locks then locks[l].depth + 1 else 1)]
  }

  function Release(locks: map<Lock, Owner>, l: Lock): map<Lock, Owner>
  {
    if l in locks && locks[l].depth > 1 then locks[l := locks[l].(depth := locks[l].depth - 1)] else locks - {l}
  }

  function At(s: State, g: GuardId, phase: Phase): State
    requires g in s.guards
  {
    s.(guards := s.guards[g := s.guards[g].(phase := phase)])
  }

  /** What one step does, if it can be taken. */
  function Step(s: State, e: Event): Option<State>
  {
    if e.Begin? then
      if e.g in s.guards then None
      else Some(s.(guards := s.guards[e.g := Guard(e.thread, e.key, e.adapter, Waiting, None)]))
    else if e.g !in s.guards then None
    else
      var x := s.guards[e.g];
      match e
      case Enter(g) =>
        if x.phase == Waiting && s.inside.None? then Some(At(s, g, Looking).(inside := Some(g))) else None
      case TrySlot(g) =>
        if x.phase != Looking then None
        else if x.key in s.registry && Alive(s, s.registry[x.key])
        then Some(s.(guards := s.guards[g := x.(phase := Leaving, mutex := Some(s.registry[x.key]))]))
        else Some(At(s, g, Creating))
      case Create(g) =>
        if x.phase != Creating then None
        else Some(s.(guards := s.guards[g := x.(phase := Leaving, mutex := Some(s.next))],
                     registry := s.registry[x.key := s.next], next := s.next + 1))
      case Leave(g) => if x.phase == Leaving then Some(At(s, g, Owning).(inside := None)) else None
      case LockRepo(g) =>
        if x.phase == Owning && x.mutex.Some? && Free(s.locks, Repo(x.mutex.value), x.thread)
        then Some(At(s, g, RepoLocked).(locks := Acquire(s.locks, Repo(x.mutex.value), x.thread)))
        else None
      case LockOps(g) =>
        if x.phase == RepoLocked && Free(s.locks, Ops(x.adapter), x.thread)
        then Some(At(s, g, Held).(locks := Acquire(s.locks, Ops(x.adapter), x.thread)))
        else None
      case UnlockOps(g) =>
        if x.phase == Held then Some(At(s, g, Unwinding).(locks := Release(s.locks, Ops(x.adapter)))) else None
      case UnlockRepo(g) =>
        if x.phase == Unwinding && x.mutex.Some?
        then Some(At(s, g, Released).(locks := Release(s.locks, Repo(x.mutex.value))))
        else None
      case Drop(g) => if x.phase == Released then Some(s.(guards := s.guards - {g})) else None
  }

  const INITIAL := State(map[], None, map[], map[], 0)

  // ----- the invariant -----

  /** Exactly one guard at a time is inside the registry. */
  ghost predicate RegistryGuarded(s: State)
  {
    && (s.inside.Some? ==> s.inside.value in s.guards)
    && (forall g :: g in s.guards ==> (Inside(s.guards[g].phase) <==> s.inside == Some(g)))
  }

  /** A guard with a pointer points to the mutex its key's slot names. */
  ghost predicate SlotsNameMutexes(s: State)
  {
    && (forall g :: g in s.guards ==> (s.guards[g].mutex.Some? <==> HasPointer(s.guards[g].phase)))
    && (forall g :: g in s.guards && s.guards[g].mutex.Some? ==> Get(s.registry, s.guards[g].key) == s.guards[g].mutex)
  }

  /** While a guard is about to create a mutex, nobody has one for its key. */
  ghost predicate CreatesAlone(s: State)
  {
    forall g, h ::
      g in s.guards && h in s.guards && s.guards[g].phase == Creating && s.guards[h].key == s.guards[g].key ==>
        s.guards[h].mutex.None?
  }

  /** Different keys have different mutexes. */
  ghost predicate KeysApart(s: State)
  {
    && (forall k :: k in s.registry ==> s.registry[k] < s.next)
    && (forall k, l :: k in s.registry && l in s.registry && s.registry[k] == s.registry[l] ==> k == l)
  }

  function Holders(guards: map<GuardId, Guard>, l: Lock): set<GuardId>
  {
    set g | g in guards && Holds(guards[g], l)
  }

  /** A lock is owned by the one thread whose guards hold it, as deep as there are guards. */
  ghost predicate LockKept(s: State, l: Lock)
  {
    && (l in s.locks <==> Holders(s.guards, l) != {})
    && (l in s.locks ==> s.locks[l].depth == |Holders(s.guards, l)|)
    && (l in s.locks ==> forall g :: g in Holders(s.guards, l) ==> s.guards[g].thread == s.locks[l].thread)
  }

  ghost predicate Inv(s: State)
  {
    && RegistryGuarded(s) && SlotsNameMutexes(s) && CreatesAlone(s) && KeysApart(s)
    && forall l :: LockKept(s, l)
  }

  lemma InitialInv()
    ensures Inv(INITIAL)
  {
    forall l
      ensures LockKept(INITIAL, l)
    {
      assert Holders(INITIAL.guards, l) == {};
    }
  }

  lemma RegistryStep(s: State, e: Event, u: State)
    requires RegistryGuarded(s) && Step(s, e) == Some(u)
    ensures RegistryGuarded(u)
  {
    hide Alive, Acquire, Release, Free;
  }

  lemma SlotStep(s: State, e: Event, u: State)
    requires SlotsNameMutexes(s) && CreatesAlone(s) && Step(s, e) == Some(u)
    ensures SlotsNameMutexes(u)
  {
    hide Alive, Acquire, Release, Free;
    forall h | h in u.guards
      ensures u.guards[h].mutex.Some? <==> HasPointer(u.guards[h].phase)
      ensures u.guards[h].mutex.Some? ==> Get(u.registry, u.guards[h].key) == u.guards[h].mutex
    {
      if h != e.g { assert h in s.guards && u.guards[h] == s.guards[h]; }
    }
  }

  lemma KeysStep(s: State, e: Event, u: State)
    requires KeysApart(s) && Step(s, e) == Some(u)
    ensures KeysApart(u)
  {
    hide Alive, Acquire, Release, Free;
  }

  lemma CreateStep(s: State, e: Event, u: State)
    requires RegistryGuarded(s) && SlotsNameMutexes(s) && CreatesAlone(s) && Step(s, e) == Some(u)
    ensures CreatesAlone(u)
  {
    hide Acquire, Release, Free;
  }

  /** The lock a step acquires or releases. */
  function Touches(s: State, e: Event): Option<Lock>
  {
    if e.g !in s.guards then None
    else
      var x := s.guards[e.g];
      if (e.LockRepo? || e.UnlockRepo?) && x.mutex.Some? then Some(Repo(x.mutex.value))
      else if e.LockOps? || e.UnlockOps? then Some(Ops(x.adapter))
      else None
  }

  /** One guard changes; who holds any other lock does not. */
  lemma OtherHolders(s: State, e: Event, u: State, l: Lock)
    requires Step(s, e) == Some(u) && SlotsNameMutexes(s) && Touches(s, e) != Some(l)
    ensures Holders(u.guards, l) == Holders(s.guards, l) && Get(u.locks, l) == Get(s.locks, l)
    ensures forall g :: g in Holders(s.guards, l) ==> g in u.guards && u.guards[g].thread == s.guards[g].thread
  {
    hide Step, SlotsNameMutexes, Touches, Holds;
    OtherLock(s, e, u, l);
    forall g
      ensures g in Holders(u.guards, l) <==> g in Holders(s.guards, l)
      ensures g in Holders(s.guards, l) ==> g in u.guards && u.guards[g].thread == s.guards[g].thread
    {
      if g != e.g { OtherGuard(s, e, u, g); } else { SameHold(s, e, u, l); }
    }
  }

  lemma OtherLock(s: State, e: Event, u: State, l: Lock)
    requires Step(s, e) == Some(u) && Touches(s, e) != Some(l)
    ensures Get(u.locks, l) == Get(s.locks, l)
  {
    hide Alive, Free;
  }

  lemma OtherGuard(s: State, e: Event, u: State, g: GuardId)
    requires Step(s, e) == Some(u) && g != e.g
    ensures Get(u.guards, g) == Get(s.guards, g) && (g in u.guards <==> g in s.guards)
    ensures g in s.guards ==> u.guards[g] == s.guards[g]
  {
    hide Alive, Free, Acquire, Release;
  }

  lemma SameHold(s: State, e: Event, u: State, l: Lock)
    requires Step(s, e) == Some(u) && SlotsNameMutexes(s) && Touches(s, e) != Some(l)
    ensures e.g in u.guards && Holds(u.guards[e.g], l) <==> e.g in s.guards && Holds(s.guards[e.g], l)
    ensures e.g in u.guards && e.g in s.guards ==> u.guards[e.g].thread == s.guards[e.g].thread
  {
    hide Alive, Free, Acquire, Release;
  }

  lemma AcquireHolders(s: State, e: Event, u: State, l: Lock)
    requires Step(s, e) == Some(u) && Touches(s, e) == Some(l) && (e.LockRepo? || e.LockOps?)
    ensures Holders(u.guards, l) == Holders(s.guards, l) + {e.g} && e.g !in Holders(s.guards, l)
    ensures u.locks == Acquire(s.locks, l, s.guards[e.g].thread) && Free(s.locks, l, s.guards[e.g].thread)
    ensures forall g :: g in s.guards ==> g in u.guards && u.guards[g].thread == s.guards[g].thread
    ensures forall g :: g in Holders(s.guards, l) ==> g in s.guards
  {
    hide Acquire, Free;
  }

  lemma ReleaseHolders(s: State, e: Event, u: State, l: Lock)
    requires Step(s, e) == Some(u) && Touches(s, e) == Some(l) && (e.UnlockRepo? || e.UnlockOps?)
    ensures Holders(u.guards, l) == Holders(s.guards, l) - {e.g} && e.g in Holders(s.guards, l)
    ensures u.locks == Release(s.locks, l)
    ensures forall g :: g in s.guards ==> g in u.guards && u.guards[g].thread == s.guards[g].thread
    ensures forall g :: g in Holders(s.guards, l) ==> g in s.guards
  {
    hide Release;
  }

  lemma LockStep(s: State, e: Event, u: State, l: Lock)
    requires Step(s, e) == Some(u) && SlotsNameMutexes(s) && LockKept(s, l)
    ensures LockKept(u, l)
  {
    hide Step, SlotsNameMutexes, Holders;
    if Touches(s, e) != Some(l) {
      OtherHolders(s, e, u, l);
    } else if e.LockRepo? || e.LockOps? {
      AcquireHolders(s, e, u, l);
      assert |Holders(u.guards, l)| == |Holders(s.guards, l)| + 1;
      assert e.g in Holders(u.guards, l);
    } else {
      ReleaseHolders(s, e, u, l);
      assert |Holders(u.guards, l)| == |Holders(s.guards, l)| - 1;
      assert |Holders(u.guards, l)| == 0 <==> Holders(u.guards, l) == {};
    }
  }

  lemma StepInv(s: State, e: Event, u: State)
    requires Inv(s) && Step(s, e) == Some(u)
    ensures Inv(u)
  {
    hide Step, RegistryGuarded, SlotsNameMutexes, CreatesAlone, KeysApart, LockKept;
    RegistryStep(s, e, u);
    SlotStep(s, e, u);
    KeysStep(s, e, u);
    CreateStep(s, e, u);
    forall l
      ensures LockKept(u, l)
    {
      LockStep(s, e, u, l);
    }
  }

  // ----- runs -----

  /** A run: any interleaving of steps that can be taken. */
  ghost predicate IsRun(states: seq<State>, events: seq<Event>)
  {
    && |states| == |events| + 1 && states[0] == INITIAL
    && forall i :: 0 <= i < |events| ==> Step(states[i], events[i]) == Some(states[i + 1])
  }

  lemma {:induction false} RunInv(states: seq<State>, events: seq<Event>, n: nat)
    requires IsRun(states, events) && n < |states|
    ensures Inv(states[n])
    decreases n
  {
    hide Inv, Step;
    if n == 0 {
      InitialInv();
    } else {
      RunInv(states, events, n - 1);
      StepInv(states[n - 1], events[n - 1], states[n]);
    }
  }

  /** All guards alive for one key share one mutex, however often its weak entry has expired
      and been made again; guards of different keys never share one. */
  lemma OneMutexPerKey(states: seq<State>, events: seq<Event>, n: nat, g: GuardId, h: GuardId)
    requires IsRun(states, events) && n < |states| && g in states[n].guards && h in states[n].guards
    requires states[n].guards[g].mutex.Some? && states[n].guards[h].mutex.Some?
    ensures states[n].guards[g].key == states[n].guards[h].key <==>
      states[n].guards[g].mutex == states[n].guards[h].mutex
  {
    hide IsRun, Step;
    RunInv(states, events, n);
  }

  /** The guard holds the repository lock it took for this key. */
  predicate WorksOn(g: Guard, key: Key)
  {
    g.phase in {RepoLocked, Held, Unwinding} && g.key == key
  }

  /** Mutual exclusion: in every state of every run, guards that hold a repository's lock, for
      one key, belong to one thread; so do constructed guards on one adapter. */
  lemma MutualExclusion(states: seq<State>, events: seq<Event>, n: nat, g: GuardId, h: GuardId)
    requires IsRun(states, events) && n < |states| && g in states[n].guards && h in states[n].guards
    ensures var x, y := states[n].guards[g], states[n].guards[h];
      && (WorksOn(x, y.key) && WorksOn(y, x.key) ==> x.thread == y.thread)
      && (x.phase == Held && y.phase == Held && x.adapter == y.adapter ==> x.thread == y.thread)
  {
    hide IsRun, Step;
    var s := states[n];
    RunInv(states, events, n);
    var x, y := s.guards[g], s.guards[h];
    if WorksOn(x, y.key) && WorksOn(y, x.key) {
      SameThread(s, Repo(x.mutex.value), g, h);
    }
    if x.phase == Held && y.phase == Held && x.adapter == y.adapter { SameThread(s, Ops(x.adapter), g, h); }
  }

  lemma SameThread(s: State, l: Lock, g: GuardId, h: GuardId)
    requires LockKept(s, l) && g in s.guards && h in s.guards && Holds(s.guards[g], l) && Holds(s.guards[h], l)
    ensures s.guards[g].thread == s.guards[h].thread
  {
    assert g in Holders(s.guards, l) && h in Holders(s.guards, l);
  }

  /** A thread that is the only one working on a repository is never blocked by it, and one that
      is the only one using an adapter never blocked by that, however deeply its guards nest. */
  lemma NestingNeverBlocks(states: seq<State>, events: seq<Event>, n: nat, g: GuardId)
    requires IsRun(states, events) && n < |states| && g in states[n].guards
    ensures states[n].guards[g].phase == Owning && OnlyThread(states[n], g, Repo(MutexOf(states[n].guards[g]))) ==>
      Step(states[n], LockRepo(g)).Some?
    ensures states[n].guards[g].phase == RepoLocked && OnlyThread(states[n], g, Ops(states[n].guards[g].adapter)) ==>
      Step(states[n], LockOps(g)).Some?
  {
    hide IsRun;
    RunInv(states, events, n);
    var s := states[n];
    var x := s.guards[g];
    if x.phase == Owning && OnlyThread(s, g, Repo(MutexOf(x))) {
      assert x.mutex.Some?;
      LetsIn(s, g, Repo(x.mutex.value));
    }
    if x.phase == RepoLocked && OnlyThread(s, g, Ops(x.adapter)) { LetsIn(s, g, Ops(x.adapter)); }
  }

  /** Everything else a guard does can always be done: once it is alone in the registry it gets a
      pointer and leaves, and a destructor never waits. */
  lemma OnlyLocksBlock(states: seq<State>, events: seq<Event>, n: nat, g: GuardId)
    requires IsRun(states, events) && n < |states| && g in states[n].guards
    ensures var s := states[n];
      match s.guards[g].phase
      case Waiting => Step(s, Enter(g)).Some? <==> s.inside.None?
      case Looking => Step(s, TrySlot(g)).Some?
      case Creating => Step(s, Create(g)).Some?
      case Leaving => Step(s, Leave(g)).Some?
      case Owning => true
      case RepoLocked => true
      case Held => Step(s, UnlockOps(g)).Some?
      case Unwinding => Step(s, UnlockRepo(g)).Some?
      case Released => Step(s, Drop(g)).Some?
  {
    hide IsRun, LockKept, KeysApart, CreatesAlone, RegistryGuarded, Alive, Acquire, Release, Free;
    RunInv(states, events, n);
  }

  function MutexOf(g: Guard): nat
  {
    if g.mutex.Some? then g.mutex.value else 0
  }

  /** Whoever holds the lock is on the guard's own thread. */
  ghost predicate OnlyThread(s: State, g: GuardId, l: Lock)
    requires g in s.guards
  {
    forall h :: h in s.guards && Holds(s.guards[h], l) ==> s.guards[h].thread == s.guards[g].thread
  }

  lemma LetsIn(s: State, g: GuardId, l: Lock)
    requires LockKept(s, l) && g in s.guards && OnlyThread(s, g, l)
    ensures Free(s.locks, l, s.guards[g].thread)
  {
    if l in s.locks {
      var h :| h in Holders(s.guards, l);
      assert s.guards[h].thread == s.locks[l].thread;
    }
  }
}
