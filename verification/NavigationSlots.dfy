// Navigation slots of the server (`rpc/server.py`) as a system of steps: client tasks, the workers
// they start in threads, and a bounded number of slots for navigation requests.
//
// A client task is at one of its waits or between two of them.  A cancellation is kept pending until
// the task is at a wait and runs again; it may come at any time, any number of times.  The semaphore
// is modelled by what it promises: a free slot is taken at once unless others wait, and a returned slot
// goes to a waiting task first.
module NavigationSlots {
  import opened Model
  import opened Sets

  type Client = nat

  type Id = nat

  // Where a client task is.
  datatype Point =
    | Reading                                                     // no request in progress
    | Queued                                                      // waiting for a slot
    | Granted                                                     // given a slot, not running again yet
    | Awaiting(worker: Id, navigation: bool)                      // the first wait for the worker
    | Testing(worker: Id, navigation: bool)                       // interrupted, about to ask whether it is done
    | Retaining(worker: Id, navigation: bool)                     // interrupted, waiting for it again
    | Leaving(worker: Id, navigation: bool, raising: bool)        // past the waits, about to give up the slot
    | Gone

  datatype Task = Task(at: Point, pending: bool)

  // A request in a thread.  The task around the thread is done some time after the thread has stopped.
  datatype Phase = Running | Stopped(failed: bool) | Done(failed: bool)

  datatype Worker = Worker(navigation: bool, told: bool, phase: Phase)

  datatype State = State(
    free: nat,
    clients: map<Client, Task>,
    workers: map<Id, Worker>,
    gathered: Option<set<Client>>,   // the clients `close` waits for
    closed: bool)                    // `close` has gathered them all

  datatype Event =
    | Connects(c: Client)
    | Requests(c: Client, navigation: bool, w: Id)
    | Disconnects(c: Client)
    | Resumes(c: Client, w: Id)
    | IsCancelled(c: Client)
    | IsInterrupted(c: Client, woken: Option<Client>)
    | Hears(c: Client)
    | Tests(c: Client)
    | Leaves(c: Client, woken: Option<Client>)
    | ThreadStops(w: Id, failed: bool)
    | WorkerEnds(w: Id)
    | CloseBegins
    | CloseEnds

  function Begin(slots: nat): State { State(slots, map[], map[], None, false) }

  // ---------- slots ----------

  predicate At(s: State, c: Client, p: Point) { c in s.clients && s.clients[c].at == p }

  predicate HasWorker(p: Point) { p.Awaiting? || p.Testing? || p.Retaining? || p.Leaving? }

  predicate HoldsSlot(p: Point) { p == Granted || (HasWorker(p) && p.navigation) }

  predicate Holds(s: State, c: Client) { c in s.clients && HoldsSlot(s.clients[c].at) }

  function Holders(s: State): set<Client> { set c | c in s.clients && Holds(s, c) }

  // Those a returned slot may go to: a cancelled task no longer waits for one.
  predicate Waits(t: Task) { t.at == Queued && !t.pending }

  function Waiting(s: State): set<Client> { set c | c in s.clients && Waits(s.clients[c]) }

  predicate MayWake(s: State, woken: Option<Client>) {
    match woken
    case None => Waiting(s) == {}
    case Some(c) => c in Waiting(s)
  }

  function Become(s: State, c: Client, t: Task): State { s.(clients := s.clients[c := t]) }

  // A slot comes back: to a waiting client, or to the free ones.
  function Returned(s: State, woken: Option<Client>): State {
    match woken
    case None => s.(free := s.free + 1)
    case Some(c) => Become(s, c, Task(Granted, false))
  }

  // A worker is started; a cancellation still pending will meet the task at its first wait.
  function Start(s: State, c: Client, navigation: bool, w: Id): State
    requires c in s.clients
  {
    var t := Task(Awaiting(w, navigation), s.clients[c].pending);
    Become(s, c, t).(workers := s.workers[w := Worker(navigation, false, Running)])
  }

  // ---------- steps ----------

  predicate IsDone(s: State, w: Id) { w in s.workers && s.workers[w].phase.Done? }

  // An interrupted task gives back a slot it was only just given.
  predicate Enabled(s: State, e: Event) {
    match e
    case Connects(c) => c !in s.clients
    case Requests(c, _, w) => At(s, c, Reading) && w !in s.workers
    case Disconnects(c) => At(s, c, Reading)
    case Resumes(c, w) => At(s, c, Granted) && !s.clients[c].pending && w !in s.workers
    case IsCancelled(c) => c in s.clients && s.clients[c].at != Gone
    case IsInterrupted(c, woken) =>
      && c in s.clients && s.clients[c].pending
      && !s.clients[c].at.Testing? && !s.clients[c].at.Leaving? && s.clients[c].at != Gone
      && (s.clients[c].at == Granted ==> MayWake(s, woken))
    case Hears(c) =>
      && c in s.clients && !s.clients[c].pending
      && (s.clients[c].at.Awaiting? || s.clients[c].at.Retaining?) && IsDone(s, s.clients[c].at.worker)
    case Tests(c) => c in s.clients && s.clients[c].at.Testing?
    case Leaves(c, woken) =>
      c in s.clients && s.clients[c].at.Leaving? && (s.clients[c].at.navigation ==> MayWake(s, woken))
    case ThreadStops(w, _) => w in s.workers && s.workers[w].phase == Running
    case WorkerEnds(w) => w in s.workers && s.workers[w].phase.Stopped?
    case CloseBegins => s.gathered.None?
    case CloseEnds => s.gathered.Some? && forall c :: c in s.gathered.value ==> At(s, c, Gone)
  }

  // A pending cancellation reaches the task where it waits.
  function Interrupt(s: State, c: Client, woken: Option<Client>): State
    requires c in s.clients
  {
    match s.clients[c].at
    case Granted => Returned(Become(s, c, Task(Gone, false)), woken)
    case Awaiting(w, navigation) =>
      var told := if w in s.workers then s.workers[w := s.workers[w].(told := true)] else s.workers;
      Become(s, c, Task(Testing(w, navigation), false)).(workers := told)
    case Retaining(w, navigation) => Become(s, c, Task(Testing(w, navigation), false))
    case _ => Become(s, c, Task(Gone, false))
  }

  // The awaited worker is done: its result is returned or its error raised; after an interruption
  // only an error ends the loop without another test.
  function Hear(s: State, c: Client): State
    requires c in s.clients && (s.clients[c].at.Awaiting? || s.clients[c].at.Retaining?)
    requires IsDone(s, s.clients[c].at.worker)
  {
    var p := s.clients[c].at;
    var failed := s.workers[p.worker].phase.failed;
    var next :=
      if p.Awaiting? || failed then Leaving(p.worker, p.navigation, failed) else Testing(p.worker, p.navigation);
    Become(s, c, Task(next, false))
  }

  function Test(s: State, c: Client): State
    requires c in s.clients && s.clients[c].at.Testing?
  {
    var p := s.clients[c].at;
    var next := if IsDone(s, p.worker) then Leaving(p.worker, p.navigation, true)
                  else Retaining(p.worker, p.navigation);
    Become(s, c, s.clients[c].(at := next))
  }

  function Leave(s: State, c: Client, woken: Option<Client>): State
    requires c in s.clients && s.clients[c].at.Leaving?
  {
    var t := s.clients[c];
    var left := Become(s, c, if t.at.raising then Task(Gone, false) else Task(Reading, t.pending));
    if t.at.navigation then Returned(left, woken) else left
  }

  function CancelAll(clients: map<Client, Task>): map<Client, Task> {
    map c | c in clients :: if clients[c].at == Gone then clients[c] else clients[c].(pending := true)
  }

  function Step(s: State, e: Event): State
    requires Enabled(s, e)
  {
    match e
    case Connects(c) => Become(s, c, Task(Reading, false))
    case Requests(c, navigation, w) =>
      if !navigation then Start(s, c, false, w)
      else if s.free > 0 && Waiting(s) == {} then Start(s.(free := s.free - 1), c, true, w)
      else Become(s, c, s.clients[c].(at := Queued))
    case Disconnects(c) => Become(s, c, Task(Gone, false))
    case Resumes(c, w) => Start(s, c, true, w)
    case IsCancelled(c) => Become(s, c, s.clients[c].(pending := true))
    case IsInterrupted(c, woken) => Interrupt(s, c, woken)
    case Hears(c) => Hear(s, c)
    case Tests(c) => Test(s, c)
    case Leaves(c, woken) => Leave(s, c, woken)
    case ThreadStops(w, failed) => s.(workers := s.workers[w := s.workers[w].(phase := Stopped(failed))])
    case WorkerEnds(w) => s.(workers := s.workers[w := s.workers[w].(phase := Done(s.workers[w].phase.failed))])
    case CloseBegins =>
      s.(clients := CancelAll(s.clients), gathered := Some(set c | c in s.clients && s.clients[c].at != Gone))
    case CloseEnds => s.(closed := true)
  }

  // ---------- what every step keeps ----------

  predicate Attends(s: State, c: Client, w: Id) {
    c in s.clients && HasWorker(s.clients[c].at) && s.clients[c].at.worker == w
  }

  // A client's worker is known and of its kind, has been told to stop once the client was interrupted,
  // and is done by the time the client is past its waits.
  predicate Fits(s: State, p: Point) {
    HasWorker(p) ==>
      && p.worker in s.workers && s.workers[p.worker].navigation == p.navigation
      && (p.Testing? || p.Retaining? ==> s.workers[p.worker].told)
      && (p.Leaving? ==> IsDone(s, p.worker))
  }

  // Every client being served has a worker of its own.
  ghost predicate Served(s: State) {
    && (forall c :: c in s.clients ==> Fits(s, s.clients[c].at))
    && (forall c, d, w :: Attends(s, c, w) && Attends(s, d, w) ==> c == d)
  }

  // A worker that is not done is still attended to by a client.
  ghost predicate Attended(s: State) {
    forall w :: w in s.workers && !IsDone(s, w) ==> exists c :: Attends(s, c, w)
  }

  ghost predicate Gathered(s: State) {
    s.closed ==> s.gathered.Some? && forall c :: c in s.gathered.value ==> At(s, c, Gone)
  }

  // `slots` counts the free slots and the held ones, and none is free while a request waits.
  predicate SlotsKept(s: State, slots: nat) {
    s.free + |Holders(s)| == slots && (Waiting(s) != {} ==> s.free == 0)
  }

  // A worker is told to stop exactly when its client is interrupted, and a client leaves raising exactly
  // when it was interrupted or its worker failed.
  predicate Informs(s: State, p: Point) {
    HasWorker(p) && p.worker in s.workers ==>
      && (p.Awaiting? ==> !s.workers[p.worker].told)
      && (p.Leaving? && IsDone(s, p.worker) ==>
            p.raising == (s.workers[p.worker].told || s.workers[p.worker].phase.failed))
  }

  ghost predicate Informed(s: State) { forall c :: c in s.clients ==> Informs(s, s.clients[c].at) }

  ghost predicate Inv(s: State, slots: nat) {
    SlotsKept(s, slots) && Served(s) && Attended(s) && Informed(s) && Gathered(s)
  }

  // ---------- slots ----------

  lemma HoldersAfter(s: State, c: Client, t: Task)
    ensures Holders(Become(s, c, t)) == if HoldsSlot(t.at) then Holders(s) + {c} else Holders(s) - {c}
    ensures Waiting(Become(s, c, t)) == if Waits(t) then Waiting(s) + {c} else Waiting(s) - {c}
  {}

  lemma CountWith(s: set<Client>, c: Client)
    ensures |s + {c}| == (if c in s then |s| else |s| + 1) && |s - {c}| == (if c in s then |s| - 1 else |s|)
  {
    if c in s { assert s + {c} == s; } else { assert s - {c} == s; }
  }

  // Slots and their count, over a client's change that leaves the free ones alone.
  lemma BecomeCounts(s: State, c: Client, t: Task)
    ensures |Holders(Become(s, c, t))| - |Holders(s)|
         == (if HoldsSlot(t.at) then 1 else 0) - (if Holds(s, c) then 1 else 0)
    ensures Waiting(Become(s, c, t)) == if Waits(t) then Waiting(s) + {c} else Waiting(s) - {c}
  {
    HoldersAfter(s, c, t);
    CountWith(Holders(s), c);
  }

  // A client that keeps holding a slot, or keeps holding none, and does not start to wait for one.
  lemma SlotsStay(s: State, c: Client, t: Task, slots: nat)
    requires SlotsKept(s, slots) && (HoldsSlot(t.at) <==> Holds(s, c)) && !Waits(t)
    ensures SlotsKept(Become(s, c, t), slots)
  {
    BecomeCounts(s, c, t);
  }

  lemma SameClients(s: State, t: State)
    requires s.clients == t.clients
    ensures Holders(t) == Holders(s) && Waiting(t) == Waiting(s)
  {}

  // Giving back the slot a client has just stopped holding.
  lemma SlotReturned(s: State, c: Client, t: Task, woken: Option<Client>, slots: nat)
    requires SlotsKept(s, slots) && Holds(s, c) && !HoldsSlot(t.at) && !Waits(t) && MayWake(s, woken)
    ensures SlotsKept(Returned(Become(s, c, t), woken), slots)
  {
    BecomeCounts(s, c, t);
    var left := Become(s, c, t);
    match woken
    case None => SameClients(left, Returned(left, woken));
    case Some(d) => BecomeCounts(left, d, Task(Granted, false));
  }

  lemma StartKeepsSlots(s: State, c: Client, navigation: bool, w: Id)
    requires c in s.clients
    ensures var t := Start(s, c, navigation, w);
            && t.free == s.free && Waiting(t) == Waiting(s) - {c}
            && |Holders(t)| - |Holders(s)| == (if navigation then 1 else 0) - (if Holds(s, c) then 1 else 0)
  {
    var t := Task(Awaiting(w, navigation), s.clients[c].pending);
    BecomeCounts(s, c, t);
    SameClients(Become(s, c, t), Start(s, c, navigation, w));
  }

  lemma RequestKeepsSlots(s: State, c: Client, navigation: bool, w: Id, slots: nat)
    requires Enabled(s, Requests(c, navigation, w)) && SlotsKept(s, slots)
    ensures SlotsKept(Step(s, Requests(c, navigation, w)), slots)
  {
    if !navigation {
      StartKeepsSlots(s, c, false, w);
    } else if s.free > 0 && Waiting(s) == {} {
      SameClients(s, s.(free := s.free - 1));
      StartKeepsSlots(s.(free := s.free - 1), c, true, w);
    } else {
      BecomeCounts(s, c, s.clients[c].(at := Queued));
    }
  }

  lemma InterruptKeepsSlots(s: State, c: Client, woken: Option<Client>, slots: nat)
    requires Enabled(s, IsInterrupted(c, woken)) && SlotsKept(s, slots)
    ensures SlotsKept(Interrupt(s, c, woken), slots)
  {
    match s.clients[c].at
    case Granted => SlotReturned(s, c, Task(Gone, false), woken, slots);
    case Awaiting(w, navigation) =>
      var t := Task(Testing(w, navigation), false);
      SlotsStay(s, c, t, slots);
      SameClients(Become(s, c, t), Interrupt(s, c, woken));
    case Retaining(w, navigation) => SlotsStay(s, c, Task(Testing(w, navigation), false), slots);
    case _ => SlotsStay(s, c, Task(Gone, false), slots);
  }

  lemma LeaveKeepsSlots(s: State, c: Client, woken: Option<Client>, slots: nat)
    requires Enabled(s, Leaves(c, woken)) && SlotsKept(s, slots)
    ensures SlotsKept(Leave(s, c, woken), slots)
  {
    var p := s.clients[c].at;
    var t := if p.raising then Task(Gone, false) else Task(Reading, s.clients[c].pending);
    if p.navigation {
      SlotReturned(s, c, t, woken, slots);
    } else {
      SlotsStay(s, c, t, slots);
    }
  }

  lemma CancelAllKeepsSlots(s: State, t: State, slots: nat)
    requires SlotsKept(s, slots) && t.free == s.free && t.clients == CancelAll(s.clients)
    ensures SlotsKept(t, slots)
  {
    assert Holders(t) == Holders(s);
    assert Waiting(t) == {};
  }

  lemma StepKeepsSlots(s: State, e: Event, slots: nat)
    requires Enabled(s, e) && SlotsKept(s, slots)
    ensures SlotsKept(Step(s, e), slots)
  {
    match e
    case Connects(c) => SlotsStay(s, c, Task(Reading, false), slots);
    case Requests(c, navigation, w) => RequestKeepsSlots(s, c, navigation, w, slots);
    case Disconnects(c) => SlotsStay(s, c, Task(Gone, false), slots);
    case Resumes(c, w) => StartKeepsSlots(s, c, true, w);
    case IsCancelled(c) => SlotsStay(s, c, s.clients[c].(pending := true), slots);
    case IsInterrupted(c, woken) => InterruptKeepsSlots(s, c, woken, slots);
    case Hears(c) => SlotsStay(s, c, Step(s, e).clients[c], slots);
    case Tests(c) => SlotsStay(s, c, Step(s, e).clients[c], slots);
    case Leaves(c, woken) => LeaveKeepsSlots(s, c, woken, slots);
    case ThreadStops(w, _) => SameClients(s, Step(s, e));
    case WorkerEnds(w) => SameClients(s, Step(s, e));
    case CloseBegins => CancelAllKeepsSlots(s, Step(s, e), slots);
    case CloseEnds => SameClients(s, Step(s, e));
  }

  // ---------- workers ----------

  // A client may turn to another point with the same worker, or leave a worker that is done.
  lemma BecomeKeepsWorkers(s: State, c: Client, t: Task)
    requires Served(s) && Attended(s) && Fits(s, t.at)
    requires HasWorker(t.at) ==> Attends(s, c, t.at.worker)
    requires !HasWorker(t.at) ==> forall w :: Attends(s, c, w) ==> IsDone(s, w)
    ensures Served(Become(s, c, t)) && Attended(Become(s, c, t))
  {
    var after := Become(s, c, t);
    assert forall d, w :: Attends(after, d, w) ==> Attends(s, d, w);
    forall d | d in after.clients ensures Fits(after, after.clients[d].at) {
      if d != c { assert Fits(s, s.clients[d].at); }
    }
    forall w | w in after.workers && !IsDone(after, w) ensures exists d :: Attends(after, d, w) {
      var d :| Attends(s, d, w);
      assert Attends(after, d, w);
    }
  }

  // Workers are told, stop and end, and none goes back.
  ghost predicate Advance(before: map<Id, Worker>, after: map<Id, Worker>) {
    && after.Keys == before.Keys
    && forall w :: w in before ==>
         && after[w].navigation == before[w].navigation && (before[w].told ==> after[w].told)
         && (before[w].phase.Done? ==> after[w].phase.Done?)
  }

  lemma AdvanceKeepsWorkers(s: State, workers: map<Id, Worker>)
    requires Served(s) && Attended(s) && Advance(s.workers, workers)
    ensures Served(s.(workers := workers)) && Attended(s.(workers := workers))
  {
    var t := s.(workers := workers);
    assert forall d, w :: Attends(t, d, w) <==> Attends(s, d, w);
    forall d | d in t.clients ensures Fits(t, t.clients[d].at) {
      assert Fits(s, s.clients[d].at);
    }
    forall w | w in t.workers && !IsDone(t, w) ensures exists d :: Attends(t, d, w) {
      assert !IsDone(s, w);
      var d :| Attends(s, d, w);
      assert Attends(t, d, w);
    }
  }

  lemma SamePoints(s: State, t: State)
    requires Served(s) && Attended(s) && s.workers == t.workers && s.clients.Keys == t.clients.Keys
    requires forall c :: c in s.clients ==> t.clients[c].at == s.clients[c].at
    ensures Served(t) && Attended(t)
  {
    assert forall d, w :: Attends(t, d, w) <==> Attends(s, d, w);
    forall d | d in t.clients ensures Fits(t, t.clients[d].at) {
      assert Fits(s, s.clients[d].at);
    }
    forall w | w in t.workers && !IsDone(t, w) ensures exists d :: Attends(t, d, w) {
      assert !IsDone(s, w);
      var d :| Attends(s, d, w);
      assert Attends(t, d, w);
    }
  }

  lemma StartKeepsWorkers(s: State, c: Client, navigation: bool, w: Id)
    requires Served(s) && Attended(s) && w !in s.workers && c in s.clients && !HasWorker(s.clients[c].at)
    ensures Served(Start(s, c, navigation, w)) && Attended(Start(s, c, navigation, w))
  {
    var t := Start(s, c, navigation, w);
    forall d | d in t.clients ensures Fits(t, t.clients[d].at) {
      if d != c { assert Fits(s, s.clients[d].at); }
    }
    forall d, v ensures Attends(t, d, v) <==> (d == c && v == w) || Attends(s, d, v) {
      if Attends(s, d, v) { assert Fits(s, s.clients[d].at); }
    }
    forall d, v | Attends(s, d, v) ensures v != w {
      assert Fits(s, s.clients[d].at);
    }
    forall v | v in t.workers && !IsDone(t, v) ensures exists d :: Attends(t, d, v) {
      if v == w {
        assert Attends(t, c, w);
      } else {
        assert !IsDone(s, v);
        var d :| Attends(s, d, v);
        assert Attends(t, d, v);
      }
    }
  }

  lemma ReturnedKeepsWorkers(s: State, woken: Option<Client>)
    requires Served(s) && Attended(s) && MayWake(s, woken)
    ensures Served(Returned(s, woken)) && Attended(Returned(s, woken))
  {
    match woken
    case None => SamePoints(s, Returned(s, woken));
    case Some(c) => BecomeKeepsWorkers(s, c, Task(Granted, false));
  }

  // Whoever a slot may go to still waits once a holder is gone.
  lemma MayWakeLater(s: State, c: Client, t: Task, woken: Option<Client>)
    requires MayWake(s, woken) && !Waits(t) && Holds(s, c)
    ensures MayWake(Become(s, c, t), woken)
  {
    HoldersAfter(s, c, t);
  }

  lemma InterruptKeepsWorkers(s: State, c: Client, woken: Option<Client>)
    requires Enabled(s, IsInterrupted(c, woken)) && Served(s) && Attended(s)
    ensures Served(Interrupt(s, c, woken)) && Attended(Interrupt(s, c, woken))
  {
    assert Fits(s, s.clients[c].at);
    match s.clients[c].at
    case Granted =>
      var t := Task(Gone, false);
      BecomeKeepsWorkers(s, c, t);
      MayWakeLater(s, c, t, woken);
      ReturnedKeepsWorkers(Become(s, c, t), woken);
    case Awaiting(w, navigation) =>
      var told := s.workers[w := s.workers[w].(told := true)];
      AdvanceKeepsWorkers(s, told);
      BecomeKeepsWorkers(s.(workers := told), c, Task(Testing(w, navigation), false));
    case Retaining(w, navigation) => BecomeKeepsWorkers(s, c, Task(Testing(w, navigation), false));
    case _ => BecomeKeepsWorkers(s, c, Task(Gone, false));
  }

  lemma LeaveKeepsWorkers(s: State, c: Client, woken: Option<Client>)
    requires Enabled(s, Leaves(c, woken)) && Served(s) && Attended(s)
    ensures Served(Leave(s, c, woken)) && Attended(Leave(s, c, woken))
  {
    assert Fits(s, s.clients[c].at);
    var p := s.clients[c].at;
    var t := if p.raising then Task(Gone, false) else Task(Reading, s.clients[c].pending);
    BecomeKeepsWorkers(s, c, t);
    if p.navigation {
      MayWakeLater(s, c, t, woken);
      ReturnedKeepsWorkers(Become(s, c, t), woken);
    }
  }

  lemma RequestKeepsWorkers(s: State, c: Client, navigation: bool, w: Id)
    requires Enabled(s, Requests(c, navigation, w)) && Served(s) && Attended(s)
    ensures var t := Step(s, Requests(c, navigation, w)); Served(t) && Attended(t)
  {
    if !navigation {
      StartKeepsWorkers(s, c, false, w);
    } else if s.free > 0 && Waiting(s) == {} {
      SamePoints(s, s.(free := s.free - 1));
      StartKeepsWorkers(s.(free := s.free - 1), c, true, w);
    } else {
      BecomeKeepsWorkers(s, c, s.clients[c].(at := Queued));
    }
  }

  lemma StepKeepsWorkers(s: State, e: Event)
    requires Enabled(s, e) && Served(s) && Attended(s)
    ensures Served(Step(s, e)) && Attended(Step(s, e))
  {
    match e
    case Connects(c) => BecomeKeepsWorkers(s, c, Task(Reading, false));
    case Requests(c, navigation, w) => RequestKeepsWorkers(s, c, navigation, w);
    case Disconnects(c) => BecomeKeepsWorkers(s, c, Task(Gone, false));
    case Resumes(c, w) => StartKeepsWorkers(s, c, true, w);
    case IsCancelled(c) => SamePoints(s, Step(s, e));
    case IsInterrupted(c, woken) => InterruptKeepsWorkers(s, c, woken);
    case Hears(c) =>
      assert Fits(s, s.clients[c].at);
      BecomeKeepsWorkers(s, c, Step(s, e).clients[c]);
    case Tests(c) =>
      assert Fits(s, s.clients[c].at);
      BecomeKeepsWorkers(s, c, Step(s, e).clients[c]);
    case Leaves(c, woken) => LeaveKeepsWorkers(s, c, woken);
    case ThreadStops(w, _) => AdvanceKeepsWorkers(s, Step(s, e).workers);
    case WorkerEnds(w) => AdvanceKeepsWorkers(s, Step(s, e).workers);
    case CloseBegins => SamePoints(s, Step(s, e));
    case CloseEnds => SamePoints(s, Step(s, e));
  }

  lemma GoneStays(s: State, e: Event, c: Client)
    requires Enabled(s, e) && At(s, c, Gone)
    ensures At(Step(s, e), c, Gone)
  {}

  lemma StepKeepsGathered(s: State, e: Event)
    requires Enabled(s, e) && Gathered(s)
    ensures Gathered(Step(s, e))
  {
    if s.closed {
      forall c | c in s.gathered.value ensures At(Step(s, e), c, Gone) {
        GoneStays(s, e, c);
      }
    }
  }

  // A step that leaves a client where it is says nothing of its worker but that its thread goes on.
  lemma InformsStays(s: State, e: Event, c: Client)
    requires Enabled(s, e) && Served(s) && Informed(s)
    requires c in s.clients && c in Step(s, e).clients && Step(s, e).clients[c].at == s.clients[c].at
    ensures Informs(Step(s, e), s.clients[c].at)
  {
    assert Fits(s, s.clients[c].at) && Informs(s, s.clients[c].at);
    if e.IsInterrupted? && s.clients[e.c].at.Awaiting? {
      assert Attends(s, e.c, s.clients[e.c].at.worker);
      assert HasWorker(s.clients[c].at) ==> Attends(s, c, s.clients[c].at.worker);
    }
  }

  lemma StepInforms(s: State, e: Event, c: Client)
    requires Enabled(s, e) && Served(s) && Informed(s) && c in Step(s, e).clients
    ensures Informs(Step(s, e), Step(s, e).clients[c].at)
  {
    if c in s.clients {
      assert Fits(s, s.clients[c].at) && Informs(s, s.clients[c].at);
      if Step(s, e).clients[c].at == s.clients[c].at { InformsStays(s, e, c); }
    }
  }

  lemma StepKeepsInformed(s: State, e: Event)
    requires Enabled(s, e) && Served(s) && Informed(s)
    ensures Informed(Step(s, e))
  {
    forall c | c in Step(s, e).clients ensures Informs(Step(s, e), Step(s, e).clients[c].at) {
      StepInforms(s, e, c);
    }
  }

  lemma StepKeeps(s: State, e: Event, slots: nat)
    requires Enabled(s, e) && Inv(s, slots)
    ensures Inv(Step(s, e), slots)
  {
    StepKeepsSlots(s, e, slots);
    StepKeepsWorkers(s, e);
    StepKeepsInformed(s, e);
    StepKeepsGathered(s, e);
  }

  // ---------- every run ----------

  // The states a sequence of events leads through.
  ghost predicate Runs(slots: nat, events: seq<Event>, states: seq<State>) {
    && |states| == |events| + 1 && states[0] == Begin(slots)
    && forall i :: 0 <= i < |events| ==> Enabled(states[i], events[i]) && states[i + 1] == Step(states[i], events[i])
  }

  lemma {:induction false} AlwaysKept(slots: nat, events: seq<Event>, states: seq<State>, i: nat)
    requires Runs(slots, events, states) && i < |states|
    ensures Inv(states[i], slots)
    decreases i
  {
    if i == 0 {
      assert Holders(states[0]) == {} && Waiting(states[0]) == {};
    } else {
      AlwaysKept(slots, events, states, i - 1);
      assert Enabled(states[i - 1], events[i - 1]);
      StepKeeps(states[i - 1], events[i - 1], slots);
    }
  }

  // Navigation workers that are not done, those whose thread still runs among them.
  function Unfinished(s: State): set<Id> {
    set w | w in s.workers && s.workers[w].navigation && !IsDone(s, w)
  }

  lemma UnfinishedAreHeld(s: State, slots: nat)
    requires Inv(s, slots)
    ensures |Unfinished(s)| <= |Holders(s)|
  {
    var worker := c => if c in s.clients && HasWorker(s.clients[c].at) then s.clients[c].at.worker else 0;
    forall w | w in Unfinished(s) ensures exists c :: c in Holders(s) && worker(c) == w {
      var c :| Attends(s, c, w);
      assert Fits(s, s.clients[c].at);
      assert c in Holders(s) && worker(c) == w;
    }
    ImageSize(Holders(s), Unfinished(s), worker);
  }

  // In every state of every run: no more unfinished navigation workers than slots, no slot lost or
  // made, none free while a request waits.
  lemma NeverMoreThanSlots(slots: nat, events: seq<Event>, states: seq<State>, i: nat)
    requires Runs(slots, events, states) && i < |states|
    ensures |Unfinished(states[i])| <= slots
    ensures states[i].free + |Holders(states[i])| == slots
    ensures Waiting(states[i]) != {} ==> states[i].free == 0
  {
    AlwaysKept(slots, events, states, i);
    UnfinishedAreHeld(states[i], slots);
  }

  // A client gives up its slot only before its worker has started or once its worker is done, however
  // often it is cancelled on the way.
  lemma ReturnedAfterWorker(slots: nat, events: seq<Event>, states: seq<State>, i: nat, c: Client)
    requires Runs(slots, events, states) && i < |events|
    requires Holds(states[i], c) && !Holds(states[i + 1], c)
    ensures states[i].clients[c].at == Granted || IsDone(states[i], states[i].clients[c].at.worker)
    ensures states[i + 1].free <= states[i].free + 1
    ensures Holders(states[i]) - {c} <= Holders(states[i + 1])
  {
    var s, e := states[i], events[i];
    AlwaysKept(slots, events, states, i);
    assert Enabled(s, e) && states[i + 1] == Step(s, e);
    assert Fits(s, s.clients[c].at);
    OnlyOneGivesUp(s, e, c);
    OthersKeepTheirs(s, e, c);
  }

  // A step makes a client give up its slot only by an interruption before it has run, or by leaving.
  lemma OnlyOneGivesUp(s: State, e: Event, c: Client)
    requires Enabled(s, e) && Holds(s, c) && !Holds(Step(s, e), c)
    ensures s.clients[c].at == Granted || s.clients[c].at.Leaving?
    ensures (e.IsInterrupted? && e.c == c) || (e.Leaves? && e.c == c)
  {}

  lemma OthersKeepTheirs(s: State, e: Event, c: Client)
    requires Enabled(s, e) && ((e.IsInterrupted? && e.c == c) || (e.Leaves? && e.c == c))
    ensures Step(s, e).free <= s.free + 1 && Holders(s) - {c} <= Holders(Step(s, e))
  {}

  // The waits a client interrupted during a request can still be at.
  predicate Unwinding(p: Point) { p.Testing? || p.Retaining? || (p.Leaving? && p.raising) || p == Gone }

  lemma StepUnwinds(s: State, e: Event, c: Client)
    requires Enabled(s, e) && c in s.clients && Unwinding(s.clients[c].at)
    ensures c in Step(s, e).clients && Unwinding(Step(s, e).clients[c].at)
  {}

  // A client interrupted during a request waits for its worker and is gone; it serves no other request.
  lemma {:induction false} NeverServesAgain(slots: nat, events: seq<Event>, states: seq<State>, i: nat, j: nat,
                                            c: Client)
    requires Runs(slots, events, states) && i <= j < |states|
    requires c in states[i].clients && Unwinding(states[i].clients[c].at)
    ensures c in states[j].clients && Unwinding(states[j].clients[c].at)
    decreases j
  {
    if i == j {
    } else {
      NeverServesAgain(slots, events, states, i, j - 1, c);
      assert Enabled(states[j - 1], events[j - 1]);
      StepUnwinds(states[j - 1], events[j - 1], c);
    }
  }

  // Once `close` has gathered its clients, no worker of theirs is unfinished, then or later.
  lemma ClosedMeansStopped(slots: nat, events: seq<Event>, states: seq<State>, i: nat, w: Id)
    requires Runs(slots, events, states) && i < |states| && states[i].closed
    requires w in states[i].workers && !IsDone(states[i], w)
    ensures states[i].gathered.Some? && exists c :: Attends(states[i], c, w) && c !in states[i].gathered.value
  {
    AlwaysKept(slots, events, states, i);
    var c :| Attends(states[i], c, w);
  }
}
