// Every navigation request ends, and so does `close`: left to themselves, tasks and threads take a bounded
// number of steps, and can take one as long as a request is in progress.
module NavigationProgress {
  import opened Model
  import opened NavigationSlots

  // The steps of tasks and threads themselves: no new request, no new cancellation, no closing.
  predicate IsOwn(e: Event) {
    e.Resumes? || e.IsInterrupted? || e.Hears? || e.Tests? || e.Leaves? || e.ThreadStops? || e.WorkerEnds?
  }

  ghost predicate GoesOn(s: State) { exists e :: IsOwn(e) && Enabled(s, e) }

  // ---------- sums ----------

  ghost function Sum(ids: set<nat>, f: nat -> nat): nat {
    if ids == {} then 0 else var x :| x in ids; f(x) + Sum(ids - {x}, f)
  }

  lemma {:induction false} SumWith(ids: set<nat>, f: nat -> nat, y: nat)
    requires y in ids
    ensures Sum(ids, f) == f(y) + Sum(ids - {y}, f)
    decreases |ids|
  {
    var x :| x in ids && Sum(ids, f) == f(x) + Sum(ids - {x}, f);
    if x != y {
      SumWith(ids - {x}, f, y);
      SumWith(ids - {y}, f, x);
      assert ids - {x} - {y} == ids - {y} - {x};
    }
  }

  lemma {:induction false} SumSame(ids: set<nat>, f: nat -> nat, g: nat -> nat)
    requires forall x :: x in ids ==> f(x) == g(x)
    ensures Sum(ids, f) == Sum(ids, g)
  {
    if ids != {} {
      var x :| x in ids;
      SumWith(ids, f, x);
      SumWith(ids, g, x);
      SumSame(ids - {x}, f, g);
    }
  }

  lemma SumChange(ids: set<nat>, f: nat -> nat, g: nat -> nat, y: nat)
    requires y in ids && forall x :: x in ids && x != y ==> f(x) == g(x)
    ensures Sum(ids, g) + f(y) == Sum(ids, f) + g(y)
  {
    SumWith(ids, f, y);
    SumWith(ids, g, y);
    SumSame(ids - {y}, f, g);
  }

  // ---------- what is left to do ----------

  function PointLeft(s: State, p: Point): nat {
    match p
    case Reading => 0
    case Queued => 8
    case Granted => 7
    case Awaiting(_, _) => 3
    case Testing(w, _) => if IsDone(s, w) then 2 else 3
    case Retaining(w, _) => if IsDone(s, w) then 3 else 2
    case Leaving(_, _, _) => 1
    case Gone => 0
  }

  function TaskLeft(s: State, t: Task): nat { PointLeft(s, t.at) + if t.pending then 2 else 0 }

  function ClientLeft(s: State, c: Client): nat { if c in s.clients then TaskLeft(s, s.clients[c]) else 0 }

  function WorkerLeft(s: State, w: Id): nat {
    if w !in s.workers then 0
    else match s.workers[w].phase
         case Running => 3
         case Stopped(_) => 2
         case Done(_) => 0
  }

  ghost function ClientsLeft(s: State): nat { Sum(s.clients.Keys, c => ClientLeft(s, c)) }

  ghost function WorkersLeft(s: State): nat { Sum(s.workers.Keys, w => WorkerLeft(s, w)) }

  // More steps than this the tasks and threads of a state do not take by themselves.
  ghost function StepsLeft(s: State): nat { ClientsLeft(s) + WorkersLeft(s) }

  // ---------- each own step leaves less ----------

  lemma ClientChanges(s: State, t: State, c: Client)
    requires t.clients.Keys == s.clients.Keys && c in s.clients
    requires forall d :: d in s.clients && d != c ==> ClientLeft(t, d) == ClientLeft(s, d)
    ensures ClientsLeft(t) + ClientLeft(s, c) == ClientsLeft(s) + ClientLeft(t, c)
  {
    SumChange(s.clients.Keys, d => ClientLeft(s, d), d => ClientLeft(t, d), c);
  }

  lemma ClientsSame(s: State, t: State)
    requires t.clients.Keys == s.clients.Keys
    requires forall d :: d in s.clients ==> ClientLeft(t, d) == ClientLeft(s, d)
    ensures ClientsLeft(t) == ClientsLeft(s)
  {
    SumSame(s.clients.Keys, d => ClientLeft(s, d), d => ClientLeft(t, d));
  }

  lemma WorkersSame(s: State, t: State)
    requires t.workers.Keys == s.workers.Keys
    requires forall w :: w in s.workers ==> t.workers[w].phase == s.workers[w].phase
    ensures WorkersLeft(t) == WorkersLeft(s)
  {
    SumSame(s.workers.Keys, w => WorkerLeft(s, w), w => WorkerLeft(t, w));
  }

  lemma WorkerChanges(s: State, t: State, w: Id)
    requires t.workers.Keys == s.workers.Keys && w in s.workers
    requires forall v :: v in s.workers && v != w ==> t.workers[v] == s.workers[v]
    ensures WorkersLeft(t) + WorkerLeft(s, w) == WorkersLeft(s) + WorkerLeft(t, w)
  {
    SumChange(s.workers.Keys, v => WorkerLeft(s, v), v => WorkerLeft(t, v), w);
  }

  // One client turns to a task, and no worker moves.
  lemma BecomeLeft(s: State, c: Client, t: Task)
    requires c in s.clients
    ensures StepsLeft(Become(s, c, t)) + TaskLeft(s, s.clients[c]) == StepsLeft(s) + TaskLeft(s, t)
  {
    ClientChanges(s, Become(s, c, t), c);
    WorkersSame(s, Become(s, c, t));
  }

  lemma ReturnedLeft(s: State, woken: Option<Client>)
    requires MayWake(s, woken)
    ensures StepsLeft(Returned(s, woken)) <= StepsLeft(s)
  {
    match woken
    case None =>
      ClientsSame(s, Returned(s, woken));
      WorkersSame(s, Returned(s, woken));
    case Some(d) => BecomeLeft(s, d, Task(Granted, false));
  }

  lemma StartLeft(s: State, c: Client, w: Id)
    requires Enabled(s, Resumes(c, w))
    ensures StepsLeft(Start(s, c, true, w)) < StepsLeft(s)
  {
    var t := Start(s, c, true, w);
    ClientChanges(s, t, c);
    SumWith(t.workers.Keys, v => WorkerLeft(t, v), w);
    assert t.workers.Keys - {w} == s.workers.Keys;
    SumSame(s.workers.Keys, v => WorkerLeft(s, v), v => WorkerLeft(t, v));
  }

  lemma InterruptLeft(s: State, c: Client, woken: Option<Client>)
    requires Enabled(s, IsInterrupted(c, woken))
    ensures StepsLeft(Interrupt(s, c, woken)) < StepsLeft(s)
  {
    match s.clients[c].at
    case Granted =>
      BecomeLeft(s, c, Task(Gone, false));
      MayWakeLater(s, c, Task(Gone, false), woken);
      ReturnedLeft(Become(s, c, Task(Gone, false)), woken);
    case Awaiting(w, navigation) =>
      ClientChanges(s, Interrupt(s, c, woken), c);
      WorkersSame(s, Interrupt(s, c, woken));
    case Retaining(w, navigation) => BecomeLeft(s, c, Task(Testing(w, navigation), false));
    case _ => BecomeLeft(s, c, Task(Gone, false));
  }

  lemma LeaveLeft(s: State, c: Client, woken: Option<Client>)
    requires Enabled(s, Leaves(c, woken))
    ensures StepsLeft(Leave(s, c, woken)) < StepsLeft(s)
  {
    var p := s.clients[c].at;
    var t := if p.raising then Task(Gone, false) else Task(Reading, s.clients[c].pending);
    BecomeLeft(s, c, t);
    if p.navigation {
      MayWakeLater(s, c, t, woken);
      ReturnedLeft(Become(s, c, t), woken);
    }
  }

  // Only the client attending to a worker has more to do once it is done.
  lemma EndLeft(s: State, w: Id)
    requires Enabled(s, WorkerEnds(w)) && Served(s)
    ensures StepsLeft(Step(s, WorkerEnds(w))) < StepsLeft(s)
  {
    var t := Step(s, WorkerEnds(w));
    WorkerChanges(s, t, w);
    if c :| Attends(s, c, w) {
      forall d | d in s.clients && d != c ensures ClientLeft(t, d) == ClientLeft(s, d) {
        assert HasWorker(s.clients[d].at) ==> Attends(s, d, s.clients[d].at.worker);
      }
      ClientChanges(s, t, c);
    } else {
      forall d | d in s.clients ensures ClientLeft(t, d) == ClientLeft(s, d) {
        assert HasWorker(s.clients[d].at) ==> Attends(s, d, s.clients[d].at.worker);
      }
      ClientsSame(s, t);
    }
  }

  lemma StopLeft(s: State, w: Id, failed: bool)
    requires Enabled(s, ThreadStops(w, failed))
    ensures StepsLeft(Step(s, ThreadStops(w, failed))) < StepsLeft(s)
  {
    var t := Step(s, ThreadStops(w, failed));
    WorkerChanges(s, t, w);
    ClientsSame(s, t);
  }

  lemma StepLeavesLess(s: State, e: Event)
    requires Enabled(s, e) && IsOwn(e) && Served(s)
    ensures StepsLeft(Step(s, e)) < StepsLeft(s)
  {
    match e
    case Resumes(c, w) => StartLeft(s, c, w);
    case IsInterrupted(c, woken) => InterruptLeft(s, c, woken);
    case Hears(c) => BecomeLeft(s, c, Step(s, e).clients[c]);
    case Tests(c) => BecomeLeft(s, c, Step(s, e).clients[c]);
    case Leaves(c, woken) => LeaveLeft(s, c, woken);
    case ThreadStops(w, failed) => StopLeft(s, w, failed);
    case WorkerEnds(w) => EndLeft(s, w);
    case _ =>
  }

  // ---------- a request in progress can go on ----------

  lemma SomeoneToWake(s: State)
    ensures exists woken :: MayWake(s, woken)
  {
    if Waiting(s) == {} {
      assert MayWake(s, None);
    } else {
      var c :| c in Waiting(s);
      assert MayWake(s, Some(c));
    }
  }

  lemma {:induction false} SomeNewId(ids: set<Id>) returns (w: Id)
    ensures forall v :: v in ids ==> v < w
  {
    if ids == {} {
      w := 0;
    } else {
      var v :| v in ids;
      w := SomeNewId(ids - {v});
      if w <= v { w := v + 1; }
      assert forall u :: u in ids ==> u == v || u in ids - {v};
    }
  }

  lemma GrantedGoesOn(s: State, c: Client)
    requires At(s, c, Granted)
    ensures GoesOn(s)
  {
    if s.clients[c].pending {
      SomeoneToWake(s);
      var woken :| MayWake(s, woken);
      assert Enabled(s, IsInterrupted(c, woken)) && IsOwn(IsInterrupted(c, woken));
    } else {
      var w := SomeNewId(s.workers.Keys);
      assert Enabled(s, Resumes(c, w)) && IsOwn(Resumes(c, w));
    }
  }

  lemma WorkingGoesOn(s: State, c: Client)
    requires c in s.clients && HasWorker(s.clients[c].at) && s.clients[c].at.worker in s.workers
    ensures GoesOn(s)
  {
    var p := s.clients[c].at;
    if p.Testing? {
      assert Enabled(s, Tests(c)) && IsOwn(Tests(c));
    } else if p.Leaving? {
      SomeoneToWake(s);
      var woken :| MayWake(s, woken);
      assert Enabled(s, Leaves(c, woken)) && IsOwn(Leaves(c, woken));
    } else if s.clients[c].pending {
      assert Enabled(s, IsInterrupted(c, None)) && IsOwn(IsInterrupted(c, None));
    } else {
      match s.workers[p.worker].phase
      case Running => assert Enabled(s, ThreadStops(p.worker, false)) && IsOwn(ThreadStops(p.worker, false));
      case Stopped(_) => assert Enabled(s, WorkerEnds(p.worker)) && IsOwn(WorkerEnds(p.worker));
      case Done(_) => assert Enabled(s, Hears(c)) && IsOwn(Hears(c));
    }
  }

  lemma HolderGoesOn(s: State, c: Client)
    requires Served(s) && (Holds(s, c) || (c in s.clients && HasWorker(s.clients[c].at)))
    ensures GoesOn(s)
  {
    assert Fits(s, s.clients[c].at);
    if At(s, c, Granted) { GrantedGoesOn(s, c); } else { WorkingGoesOn(s, c); }
  }

  // With any slots at all, a state with a request in progress or a cancellation not yet met goes on: who
  // waits for a slot waits for a client that has one.
  lemma ServedGoesOn(s: State, slots: nat, c: Client)
    requires Inv(s, slots) && slots > 0
    requires c in s.clients && s.clients[c].at != Gone && (s.clients[c].at == Reading ==> s.clients[c].pending)
    ensures GoesOn(s)
  {
    var p := s.clients[c].at;
    if HoldsSlot(p) || HasWorker(p) {
      HolderGoesOn(s, c);
    } else if s.clients[c].pending {
      assert Enabled(s, IsInterrupted(c, None)) && IsOwn(IsInterrupted(c, None));
    } else {
      assert c in Waiting(s);
      assert |Holders(s)| > 0;
      var d :| d in Holders(s);
      HolderGoesOn(s, d);
    }
  }

  // ---------- every run ----------

  lemma {:induction false} StepsAreLeft(slots: nat, events: seq<Event>, states: seq<State>, i: nat, j: nat)
    requires Runs(slots, events, states) && i <= j < |states|
    requires forall k :: i <= k < j ==> IsOwn(events[k])
    ensures j - i + StepsLeft(states[j]) <= StepsLeft(states[i])
    decreases j
  {
    if i < j {
      StepsAreLeft(slots, events, states, i, j - 1);
      AlwaysKept(slots, events, states, j - 1);
      assert Enabled(states[j - 1], events[j - 1]);
      StepLeavesLess(states[j - 1], events[j - 1]);
    }
  }

  // From any state of any run tasks and threads take at most so many steps by themselves, and when they
  // can take no more, no request is in progress and no cancellation pending.
  lemma RequestsEnd(slots: nat, events: seq<Event>, states: seq<State>, i: nat, j: nat)
    requires Runs(slots, events, states) && i <= j < |states| && slots > 0
    requires forall k :: i <= k < j ==> IsOwn(events[k])
    ensures j - i <= StepsLeft(states[i])
    ensures !GoesOn(states[j]) ==>
              forall c :: c in states[j].clients ==>
                At(states[j], c, Gone) || states[j].clients[c] == Task(Reading, false)
  {
    StepsAreLeft(slots, events, states, i, j);
    AlwaysKept(slots, events, states, j);
    var s := states[j];
    if !GoesOn(s) {
      forall c | c in s.clients ensures At(s, c, Gone) || s.clients[c] == Task(Reading, false) {
        if s.clients[c].at != Gone && (s.clients[c].at == Reading ==> s.clients[c].pending) {
          ServedGoesOn(s, slots, c);
        }
      }
    }
  }

  // A client that `close` waits for still has the cancellation to meet, or has met it.
  predicate IsLeaving(s: State, c: Client) {
    c in s.clients && (s.clients[c].pending || Unwinding(s.clients[c].at))
  }

  ghost predicate AllLeaving(s: State) {
    s.gathered.Some? ==> forall c :: c in s.gathered.value ==> IsLeaving(s, c)
  }

  lemma StepKeepsLeaving(s: State, e: Event, c: Client)
    requires Enabled(s, e) && IsLeaving(s, c)
    ensures IsLeaving(Step(s, e), c)
  {}

  lemma {:induction false} AlwaysLeaving(slots: nat, events: seq<Event>, states: seq<State>, i: nat)
    requires Runs(slots, events, states) && i < |states|
    ensures AllLeaving(states[i])
    decreases i
  {
    if i > 0 {
      AlwaysLeaving(slots, events, states, i - 1);
      var s, e := states[i - 1], events[i - 1];
      assert Enabled(s, e) && states[i] == Step(s, e);
      if s.gathered.Some? {
        forall c | c in s.gathered.value ensures IsLeaving(Step(s, e), c) {
          StepKeepsLeaving(s, e, c);
        }
      }
    }
  }

  // So once `close` has cancelled its clients, what tasks and threads do by themselves lets it finish.
  lemma CloseCanEnd(slots: nat, events: seq<Event>, states: seq<State>, i: nat)
    requires Runs(slots, events, states) && i < |states| && slots > 0
    requires states[i].gathered.Some? && !GoesOn(states[i])
    ensures Enabled(states[i], CloseEnds) && Step(states[i], CloseEnds).closed
  {
    RequestsEnd(slots, events, states, i, i);
    AlwaysLeaving(slots, events, states, i);
    var s := states[i];
    forall c | c in s.gathered.value ensures At(s, c, Gone) {
      assert IsLeaving(s, c);
    }
  }

  // A client connected when `close` begins is gone once it has finished.
  lemma {:induction false} StaysGathered(slots: nat, events: seq<Event>, states: seq<State>, i: nat, j: nat)
    requires Runs(slots, events, states) && i <= j < |states| && states[i].gathered.Some?
    ensures states[j].gathered == states[i].gathered
    decreases j
  {
    if i < j {
      StaysGathered(slots, events, states, i, j - 1);
      assert Enabled(states[j - 1], events[j - 1]);
    }
  }

  lemma {:induction false} StaysGone(slots: nat, events: seq<Event>, states: seq<State>, i: nat, j: nat, c: Client)
    requires Runs(slots, events, states) && i <= j < |states| && At(states[i], c, Gone)
    ensures At(states[j], c, Gone)
    decreases j
  {
    if i < j {
      StaysGone(slots, events, states, i, j - 1, c);
      assert Enabled(states[j - 1], events[j - 1]);
      GoneStays(states[j - 1], events[j - 1], c);
    }
  }

  lemma ConnectedIsGone(slots: nat, events: seq<Event>, states: seq<State>, i: nat, j: nat, c: Client)
    requires Runs(slots, events, states) && i < j < |states| && events[i].CloseBegins? && states[j].closed
    requires c in states[i].clients
    ensures At(states[j], c, Gone)
  {
    assert Enabled(states[i], events[i]) && states[i + 1] == Step(states[i], events[i]);
    StaysGathered(slots, events, states, i + 1, j);
    AlwaysKept(slots, events, states, j);
    if At(states[i], c, Gone) {
      StaysGone(slots, events, states, i, j, c);
    } else {
      assert c in states[j].gathered.value;
    }
  }
}
