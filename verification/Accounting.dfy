/**
 * Connection accounting: the accept loop on thread 0 and the session fibers on worker threads, as one state
 * machine over their interleaved steps. A step is what one thread does without another thread being able to see
 * the middle of it; the per-thread maps are seen by their own thread only.
 */
module Accounting {
  import opened Chars

  /** How far a session has come: admitted, handed to a fiber, in its thread's map, counted out, out of the map. */
  datatype Stage = Admitted | Scheduled | Managed | Leaving | Removed

  datatype Session = Session(fd: nat, thread: nat, stage: Stage)

  /** Where the accept loop stands. */
  datatype Pc =
    | Accepting              // before the test of the limit
    | Admitting(fd: nat)     // the test has let the socket pass
    | CountedIn(id: nat)     // connections_++ is done
    | Cumulated(id: nat)     // so is the cumulative statistic
    | Exceeding(id: nat)     // more connections than the recorded largest
    | Noted(id: nat)         // the statistics are done

  /** Sessions by number; `closed` and `peak` are what the statistics are measured against. */
  datatype State = State(maxConns: int, disposed: bool, connections: int, cumulative: nat, largest: int, pc: Pc,
                         sessions: map<nat, Session>, nextId: nat,
                         managed: seq<map<nat, nat>>, counters: seq<int>, closed: nat, peak: int)

  datatype Step =
    | Accept(fd: nat) | CountIn | Cumulate | Compare | SetLargest | Schedule(fid: nat) | Dispose
    | Start(id: nat) | CountOut(id: nat) | Remove(id: nat) | Close(id: nat)

  function Initial(maxConns: int, threads: nat): State {
    State(maxConns, false, 0, 0, 0, Accepting, map[], 0, seq(threads, _ => map[]), seq(threads, _ => 0), 0, 0)
  }

  /**
   * The thread a session fiber is placed on. The number of threads is that of the processors: with one of them the
   * placement divides by zero, which is None here.
   */
  function Placed(fid: nat, threads: nat): (t: Option<nat>)
    requires threads >= 1
    ensures t.Some? <==> threads >= 2
    ensures t.Some? ==> 1 <= t.value < threads
  {
    if threads == 1 then None else Some(fid % (threads - 1) + 1)
  }

  /** Fibers take turns: the first is placed on thread 1, and each next one on the next thread, round and round. */
  lemma {:induction false} TakeTurns(fid: nat, threads: nat)
    requires threads >= 2
    ensures Placed(0, threads) == Some(1)
    ensures var t := Placed(fid, threads).value; Placed(fid + 1, threads) == Some(if t + 1 < threads then t + 1 else 1)
  {
    hide Placed;
    PlacedAt(0, threads);
    PlacedAt(fid, threads);
    PlacedAt(fid + 1, threads);
    var m := threads - 1;
    NextRemainder(fid, m);
    NoRemainder(m);
  }

  lemma {:induction false} PlacedAt(fid: nat, threads: nat)
    requires threads >= 2
    ensures Placed(fid, threads) == Some(fid % (threads - 1) + 1)
  {
  }

  lemma {:induction false} NoRemainder(m: nat)
    requires m > 0
    ensures 0 % m == 0
  {
  }

  lemma {:induction false} NextRemainder(n: nat, m: nat)
    requires m > 0
    ensures (n + 1) % m == if n % m == m - 1 then 0 else n % m + 1
  {
    var a, b := n % m, (n + 1) % m;
    var k := (n + 1) / m - n / m;
    Division(n, m);
    Division(n + 1, m);
    assert k * m == a + 1 - b by { Distributes((n + 1) / m, n / m, m); }
    if k >= 2 { AtLeast(k - 2, m); Distributes(k, 2, m); }
    if k <= -1 { AtLeast(-1 - k, m); Distributes(-1, k, m); }
  }

  lemma {:induction false} Division(n: nat, m: nat)
    requires m > 0
    ensures n / m * m + n % m == n && 0 <= n % m < m
  {
  }

  lemma {:induction false} Distributes(x: int, y: int, m: int)
    ensures (x - y) * m == x * m - y * m
  {
  }

  lemma {:induction false} AtLeast(k: int, m: nat)
    requires k >= 0
    ensures k * m >= 0
  {
  }

  predicate At(s: State, id: nat, stage: Stage) { id in s.sessions && s.sessions[id].stage == stage }

  /** A descriptor in use; the system hands out no such descriptor again. */
  predicate InUse(s: State, fd: nat) {
    (s.pc.Admitting? && s.pc.fd == fd) || exists id :: id in s.sessions && s.sessions[id].fd == fd
  }

  function WithStage(s: State, id: nat, stage: Stage): State
    requires id in s.sessions
  {
    s.(sessions := s.sessions[id := s.sessions[id].(stage := stage)])
  }

  function Put(m: map<nat, nat>, fd: nat, id: nat): map<nat, nat> { m[fd := id] }

  function Max(a: int, b: int): int { if a >= b then a else b }

  /** Whether a step can happen. */
  predicate Enabled(s: State, step: Step) {
    match step
    case Accept(fd) => s.pc.Accepting? && !InUse(s, fd)
    case CountIn => s.pc.Admitting?
    case Cumulate => s.pc.CountedIn?
    case Compare => s.pc.Cumulated?
    case SetLargest => s.pc.Exceeding?
    case Schedule(fid) => s.pc.Noted? && s.pc.id in s.sessions && |s.managed| >= 1 && Placed(fid, |s.managed|).Some?
    case Dispose => true
    case Start(id) => At(s, id, Scheduled) && s.sessions[id].thread < |s.managed| == |s.counters|
    case CountOut(id) => At(s, id, Managed)
    case Remove(id) => At(s, id, Leaving) && s.sessions[id].thread < |s.managed| == |s.counters|
    case Close(id) => At(s, id, Removed)
  }

  function Next(s: State, step: Step): State
    requires Enabled(s, step)
  {
    match step
    case Accept(fd) =>
      if s.disposed || (s.maxConns > 0 && s.connections >= s.maxConns) then s else s.(pc := Admitting(fd))
    case CountIn =>
      s.(connections := s.connections + 1, peak := Max(s.peak, s.connections + 1), pc := CountedIn(s.nextId),
         sessions := s.sessions[s.nextId := Session(s.pc.fd, 0, Admitted)], nextId := s.nextId + 1)
    case Cumulate => s.(cumulative := s.cumulative + 1, pc := Cumulated(s.pc.id))
    case Compare => s.(pc := if s.connections > s.largest then Exceeding(s.pc.id) else Noted(s.pc.id))
    case SetLargest => s.(largest := s.connections, pc := Noted(s.pc.id))
    case Schedule(fid) =>
      var x := s.sessions[s.pc.id];
      s.(sessions := s.sessions[s.pc.id := x.(stage := Scheduled, thread := Placed(fid, |s.managed|).value)],
            pc := Accepting)
    case Dispose => s.(disposed := true)
    case Start(id) =>
      var x := s.sessions[id];
      WithStage(s, id, Managed).(managed := s.managed[x.thread := Put(s.managed[x.thread], x.fd, id)],
                                 counters := s.counters[x.thread := s.counters[x.thread] + 1])
    case CountOut(id) => WithStage(s, id, Leaving).(connections := s.connections - 1)
    case Remove(id) =>
      var x := s.sessions[id];
      WithStage(s, id, Removed).(managed := s.managed[x.thread := s.managed[x.thread] - {x.fd}],
                                 counters := s.counters[x.thread := s.counters[x.thread] - 1])
    case Close(id) => s.(sessions := s.sessions - {id}, closed := s.closed + 1)
  }

  // ---------------------------------------------------------------- the invariant

  /** The sessions admitted and not yet counted out. */
  function Live(sessions: map<nat, Session>): set<nat> {
    set id | id in sessions &&
             (sessions[id].stage.Admitted? || sessions[id].stage.Scheduled? || sessions[id].stage.Managed?)
  }

  predicate InMap(x: Session) { x.stage.Managed? || x.stage.Leaving? }

  /** Every session that is in its thread's map is there under its descriptor, and nothing else is in a map. */
  predicate MapsExact(s: State) {
    && |s.managed| == |s.counters|
    && (forall id :: id in s.sessions && !s.sessions[id].stage.Admitted? ==> 1 <= s.sessions[id].thread < |s.managed|)
    && (forall id :: id in s.sessions && InMap(s.sessions[id]) ==>
          var x := s.sessions[id]; x.fd in s.managed[x.thread] && s.managed[x.thread][x.fd] == id)
    && (forall t, fd :: 0 <= t < |s.managed| && fd in s.managed[t] ==>
          var id := s.managed[t][fd];
          id in s.sessions && InMap(s.sessions[id]) && s.sessions[id].fd == fd && s.sessions[id].thread == t)
  }

  predicate Descriptors(s: State) {
    && (forall a, b :: a in s.sessions && b in s.sessions && a != b ==> s.sessions[a].fd != s.sessions[b].fd)
    && (s.pc.Admitting? ==> forall a :: a in s.sessions ==> s.sessions[a].fd != s.pc.fd)
  }

  /** The session the accept loop is busy with. */
  function Pending(pc: Pc): Option<nat> { if pc.Accepting? || pc.Admitting? then None else Some(pc.id) }

  /** That session, and no other, is still on its way to a fiber. */
  predicate OnItsWay(s: State) {
    && (forall id :: id in s.sessions ==> id < s.nextId)
    && (forall id :: id in s.sessions && s.sessions[id].stage.Admitted? ==> Pending(s.pc) == Some(id))
    && (Pending(s.pc).Some? ==> At(s, Pending(s.pc).value, Admitted))
  }

  /** The counters that every thread reads. */
  predicate Totals(s: State) {
    && s.connections == |Live(s.sessions)|
    && (s.maxConns > 0 ==> s.connections <= s.maxConns && (s.pc.Admitting? ==> s.connections < s.maxConns))
    && s.cumulative + (if s.pc.CountedIn? then 1 else 0) == |s.sessions| + s.closed
    && s.connections <= s.peak && s.largest <= s.peak
  }

  /** Each thread's counter is the size of its map. */
  predicate Sizes(s: State) {
    |s.managed| == |s.counters| && forall t :: 0 <= t < |s.counters| ==> s.counters[t] == |s.managed[t]|
  }

  predicate Invariant(s: State) { MapsExact(s) && Descriptors(s) && OnItsWay(s) && Totals(s) && Sizes(s) }

  lemma {:induction false} InitialInvariant(maxConns: int, threads: nat)
    ensures Invariant(Initial(maxConns, threads))
  {
    assert Live(map[]) == {};
  }

  // ---------------------------------------------------------------- every step keeps it

  lemma {:induction false} LiveChanges(m: map<nat, Session>, id: nat, x: Session)
    ensures Live(m[id := x]) ==
            if x.stage.Admitted? || x.stage.Scheduled? || x.stage.Managed? then Live(m) + {id} else Live(m) - {id}
    ensures |m[id := x]| == |m| + if id in m then 0 else 1
  {
    assert m[id := x].Keys == m.Keys + {id};
  }

  lemma {:induction false} LiveWithout(m: map<nat, Session>, id: nat)
    requires id in m && id !in Live(m)
    ensures Live(m - {id}) == Live(m) && |m - {id}| == |m| - 1
  {
    assert (m - {id}).Keys == m.Keys - {id};
  }

  /** A step that changes no session and no map. */
  lemma {:induction false} LoopKeeps(s: State, r: State)
    requires Invariant(s) && r.sessions == s.sessions && r.managed == s.managed && r.counters == s.counters
    requires r.nextId == s.nextId && Pending(r.pc) == Pending(s.pc) && Totals(r)
    requires r.pc.Admitting? ==> s.pc == r.pc || !InUse(s, r.pc.fd)
    ensures Invariant(r)
  {
    SameMaps(s, r);
    hide MapsExact, Live;
  }

  lemma {:induction false} AcceptKeeps(s: State, step: Step)
    requires Invariant(s) && Enabled(s, step)
    requires step.Accept? || step.Cumulate? || step.Compare? || step.SetLargest? || step.Dispose?
    ensures Invariant(Next(s, step))
  {
    hide MapsExact, Live, Descriptors, Sizes, InUse;
    LoopKeeps(s, Next(s, step));
  }

  lemma {:induction false} SameMaps(s: State, r: State)
    requires MapsExact(s) && r.sessions == s.sessions && r.managed == s.managed && r.counters == s.counters
    ensures MapsExact(r)
  {
  }

  /** A new session, and later its thread, leave the maps as they are. */
  lemma {:induction false} NotMapped(s: State, id: nat, x: Session)
    requires MapsExact(s) && (id in s.sessions ==> s.sessions[id].stage.Admitted?)
    requires x.stage.Admitted? || (x.stage.Scheduled? && 1 <= x.thread < |s.managed|)
    ensures MapsExact(s.(sessions := s.sessions[id := x]))
  {
  }

  lemma {:induction false} SameSizes(s: State, r: State)
    requires Sizes(s) && r.managed == s.managed && r.counters == s.counters
    ensures Sizes(r)
  {
  }

  lemma {:induction false} CountInWay(s: State)
    requires Descriptors(s) && OnItsWay(s) && s.pc.Admitting?
    ensures s.nextId !in s.sessions && Descriptors(Next(s, CountIn)) && OnItsWay(Next(s, CountIn))
  {
  }

  lemma {:induction false} ScheduleWay(s: State, x: Session)
    requires Descriptors(s) && OnItsWay(s) && s.pc.Noted? && s.pc.id in s.sessions
    requires x.fd == s.sessions[s.pc.id].fd && x.stage.Scheduled?
    ensures s.sessions[s.pc.id].stage.Admitted?
    ensures var r := s.(sessions := s.sessions[s.pc.id := x], pc := Accepting); Descriptors(r) && OnItsWay(r)
  {
  }

  lemma {:induction false} CountInKeeps(s: State)
    requires Invariant(s) && Enabled(s, CountIn)
    ensures Invariant(Next(s, CountIn))
  {
    hide MapsExact, Descriptors, OnItsWay, Live, Sizes;
    var x := Session(s.pc.fd, 0, Admitted);
    CountInWay(s);
    var m := s.(sessions := s.sessions[s.nextId := x]);
    NotMapped(s, s.nextId, x);
    SameMaps(m, Next(s, CountIn));
    SameSizes(s, Next(s, CountIn));
    NewMember(s.sessions, s.nextId);
    LiveChanges(s.sessions, s.nextId, x);
  }

  lemma {:induction false} ScheduleKeeps(s: State, fid: nat)
    requires Invariant(s) && Enabled(s, Schedule(fid))
    ensures Invariant(Next(s, Schedule(fid)))
  {
    hide MapsExact, Descriptors, Live, Sizes, Placed;
    var id := s.pc.id;
    var x := s.sessions[id].(stage := Scheduled, thread := Placed(fid, |s.managed|).value);
    ScheduleWay(s, x);
    var m := s.(sessions := s.sessions[id := x]);
    NotMapped(s, id, x);
    SameMaps(m, Next(s, Schedule(fid)));
    SameSizes(s, Next(s, Schedule(fid)));
    LiveMember(s.sessions, id);
    LiveChanges(s.sessions, id, x);
    assert Live(s.sessions) + {id} == Live(s.sessions);
  }

  /** A session that has its fiber moves on: descriptors and the accept loop are not touched. */
  lemma {:induction false} StageKeeps(s: State, id: nat, r: State, stage: Stage)
    requires Descriptors(s) && OnItsWay(s) && id in s.sessions && !s.sessions[id].stage.Admitted? && !stage.Admitted?
    requires r.sessions == WithStage(s, id, stage).sessions && r.pc == s.pc && r.nextId == s.nextId
    ensures Descriptors(r) && OnItsWay(r)
  {
  }

  lemma {:induction false} StartMaps(s: State, id: nat)
    requires MapsExact(s) && Descriptors(s) && Enabled(s, Start(id))
    ensures MapsExact(Next(s, Start(id))) && s.sessions[id].fd !in s.managed[s.sessions[id].thread]
  {
    hide MapsExact, Descriptors;
    NotInMap(s, id);
    StartExact(s, id);
  }

  lemma {:induction false} StartExact(s: State, id: nat)
    requires MapsExact(s) && Enabled(s, Start(id)) && s.sessions[id].fd !in s.managed[s.sessions[id].thread]
    ensures MapsExact(Next(s, Start(id)))
  {
  }

  /** Distinct descriptors keep a new session from replacing another in its map. */
  lemma {:induction false} NotInMap(s: State, id: nat)
    requires MapsExact(s) && Descriptors(s) && At(s, id, Scheduled) && s.sessions[id].thread < |s.managed|
    ensures s.sessions[id].fd !in s.managed[s.sessions[id].thread]
  {
    var m := s.managed[s.sessions[id].thread];
    forall fd | fd in m
      ensures fd != s.sessions[id].fd
    {
      assert s.sessions[m[fd]].fd == fd && m[fd] != id;
    }
  }

  lemma {:induction false} StartKeeps(s: State, id: nat)
    requires Invariant(s) && Enabled(s, Start(id))
    ensures Invariant(Next(s, Start(id)))
  {
    hide MapsExact, Descriptors, OnItsWay, Live, Sizes;
    StartMaps(s, id);
    StageKeeps(s, id, Next(s, Start(id)), Managed);
    StartSizes(s, id);
    LiveChanges(s.sessions, id, s.sessions[id].(stage := Managed));
    LiveMember(s.sessions, id);
    assert Live(s.sessions) + {id} == Live(s.sessions);
  }

  lemma {:induction false} StartSizes(s: State, id: nat)
    requires Sizes(s) && Enabled(s, Start(id)) && s.sessions[id].fd !in s.managed[s.sessions[id].thread]
    ensures Sizes(Next(s, Start(id)))
  {
    PutSize(s.managed[s.sessions[id].thread], s.sessions[id].fd, id);
  }

  lemma {:induction false} RemoveSizes(s: State, id: nat)
    requires Sizes(s) && Enabled(s, Remove(id)) && s.sessions[id].fd in s.managed[s.sessions[id].thread]
    ensures Sizes(Next(s, Remove(id)))
  {
    TakeSize(s.managed[s.sessions[id].thread], s.sessions[id].fd);
  }

  lemma {:induction false} PutSize(m: map<nat, nat>, fd: nat, id: nat)
    requires fd !in m
    ensures |Put(m, fd, id)| == |m| + 1
  {
    assert Put(m, fd, id).Keys == m.Keys + {fd};
  }

  lemma {:induction false} TakeSize(m: map<nat, nat>, fd: nat)
    requires fd in m
    ensures |m - {fd}| == |m| - 1
  {
    assert (m - {fd}).Keys == m.Keys - {fd};
  }

  lemma {:induction false} NewMember(m: map<nat, Session>, id: nat)
    ensures id !in m ==> id !in Live(m)
  {
  }

  lemma {:induction false} LiveMember(m: map<nat, Session>, id: nat)
    requires id in m
    ensures id in Live(m) <==> m[id].stage.Admitted? || m[id].stage.Scheduled? || m[id].stage.Managed?
  {
  }

  lemma {:induction false} CountOutMaps(s: State, id: nat)
    requires MapsExact(s) && Enabled(s, CountOut(id))
    ensures MapsExact(Next(s, CountOut(id)))
  {
  }

  lemma {:induction false} CountOutKeeps(s: State, id: nat)
    requires Invariant(s) && Enabled(s, CountOut(id))
    ensures Invariant(Next(s, CountOut(id)))
  {
    hide MapsExact, Descriptors, OnItsWay, Live, Sizes;
    CountOutMaps(s, id);
    StageKeeps(s, id, Next(s, CountOut(id)), Leaving);
    SameSizes(s, Next(s, CountOut(id)));
    LiveChanges(s.sessions, id, s.sessions[id].(stage := Leaving));
    LiveMember(s.sessions, id);
  }

  lemma {:induction false} RemoveMaps(s: State, id: nat)
    requires MapsExact(s) && Descriptors(s) && Enabled(s, Remove(id))
    ensures MapsExact(Next(s, Remove(id))) && s.sessions[id].fd in s.managed[s.sessions[id].thread]
  {
  }

  lemma {:induction false} RemoveKeeps(s: State, id: nat)
    requires Invariant(s) && Enabled(s, Remove(id))
    ensures Invariant(Next(s, Remove(id)))
  {
    hide MapsExact, Descriptors, OnItsWay, Live, Sizes;
    RemoveMaps(s, id);
    StageKeeps(s, id, Next(s, Remove(id)), Removed);
    RemoveSizes(s, id);
    LiveChanges(s.sessions, id, s.sessions[id].(stage := Removed));
    LiveMember(s.sessions, id);
    assert Live(s.sessions) - {id} == Live(s.sessions);
  }

  lemma {:induction false} CloseMaps(s: State, id: nat)
    requires MapsExact(s) && Enabled(s, Close(id))
    ensures MapsExact(Next(s, Close(id)))
  {
  }

  lemma {:induction false} CloseWay(s: State, id: nat)
    requires Descriptors(s) && OnItsWay(s) && Enabled(s, Close(id))
    ensures Descriptors(Next(s, Close(id))) && OnItsWay(Next(s, Close(id)))
  {
  }

  lemma {:induction false} CloseKeeps(s: State, id: nat)
    requires Invariant(s) && Enabled(s, Close(id))
    ensures Invariant(Next(s, Close(id)))
  {
    hide MapsExact, Descriptors, OnItsWay, Live, Sizes;
    CloseMaps(s, id);
    CloseWay(s, id);
    LiveMember(s.sessions, id);
    LiveWithout(s.sessions, id);
    SameSizes(s, Next(s, Close(id)));
  }

  lemma {:induction false} StepKeeps(s: State, step: Step)
    requires Invariant(s) && Enabled(s, step)
    ensures Invariant(Next(s, step))
  {
    hide Invariant, Next, Enabled;
    match step
    case CountIn => CountInKeeps(s);
    case Schedule(fid) => ScheduleKeeps(s, fid);
    case Start(id) => StartKeeps(s, id);
    case CountOut(id) => CountOutKeeps(s, id);
    case Remove(id) => RemoveKeeps(s, id);
    case Close(id) => CloseKeeps(s, id);
    case _ => AcceptKeeps(s, step);
  }

  /** The state after a run, or None if some step could not happen. */
  function Run(s: State, steps: seq<Step>): Option<State> {
    if steps == [] then Some(s)
    else
      var r := Run(s, steps[..|steps| - 1]);
      if r.None? || !Enabled(r.value, steps[|steps| - 1]) then None else Some(Next(r.value, steps[|steps| - 1]))
  }

  lemma {:induction false} RunKeeps(s: State, steps: seq<Step>)
    requires Invariant(s)
    ensures Run(s, steps).Some? ==> Invariant(Run(s, steps).value)
    decreases |steps|
  {
    hide Invariant, Next, Enabled;
    if steps != [] {
      RunKeeps(s, steps[..|steps| - 1]);
      var r := Run(s, steps[..|steps| - 1]);
      if r.Some? && Enabled(r.value, steps[|steps| - 1]) { StepKeeps(r.value, steps[|steps| - 1]); }
    }
  }

  // ---------------------------------------------------------------- what holds in every interleaving

  /**
   * In every interleaving: the connection counter is the number of sessions admitted and not counted out, and
   * never above a positive limit; the cumulative count is the sessions there are and those closed, up to the one
   * being counted in; each thread's counter is the size of its map; and the recorded largest is not above the peak.
   */
  lemma {:induction false} Accounts(maxConns: int, threads: nat, steps: seq<Step>)
    ensures var r := Run(Initial(maxConns, threads), steps);
            r.Some? ==> var s := r.value;
              && s.connections == |Live(s.sessions)| >= 0
              && (maxConns > 0 ==> s.connections <= maxConns)
              && (!s.pc.CountedIn? ==> s.cumulative == |s.sessions| + s.closed)
              && |s.counters| == |s.managed| && (forall t :: 0 <= t < |s.counters| ==> s.counters[t] == |s.managed[t]|)
              && s.largest <= s.peak && Sum(s.counters) == |InMaps(s, |s.counters|)|
  {
    hide Run, MapsExact, Descriptors, OnItsWay, Live, Sum, InMaps;
    InitialInvariant(maxConns, threads);
    RunKeeps(Initial(maxConns, threads), steps);
    LimitFixed(Initial(maxConns, threads), steps);
    var r := Run(Initial(maxConns, threads), steps);
    if r.Some? {
      var s := r.value;
      SumIsManaged(s, |s.counters|);
      assert s.counters[..|s.counters|] == s.counters;
    }
  }

  // ---------------------------------------------------------------- the recorded largest

  lemma {:induction false} RunSnoc(s: State, steps: seq<Step>, step: Step)
    ensures Run(s, steps + [step]) ==
            var r := Run(s, steps); if r.None? || !Enabled(r.value, step) then None else Some(Next(r.value, step))
  {
    assert (steps + [step])[..|steps|] == steps;
  }

  lemma {:induction false} RunConcat(s: State, a: seq<Step>, b: seq<Step>)
    ensures Run(s, a + b) == if Run(s, a).None? then None else Run(Run(s, a).value, b)
    decreases |b|
  {
    hide Enabled, Next;
    if b == [] {
      assert a + b == a;
    } else {
      var n := |b| - 1;
      RunConcat(s, a, b[..n]);
      assert a + b == (a + b[..n]) + [b[n]];
      RunSnoc(s, a + b[..n], b[n]);
      if Run(s, a).Some? { RunSnoc(Run(s, a).value, b[..n], b[n]); }
    }
  }

  /** Steps that are not taken by the accept loop. */
  predicate OfOthers(step: Step) { step.Start? || step.CountOut? || step.Remove? || step.Close? || step.Dispose? }

  /** How many sessions are counted out. */
  function Outs(steps: seq<Step>): nat {
    if steps == [] then 0 else Outs(steps[..|steps| - 1]) + if steps[|steps| - 1].CountOut? then 1 else 0
  }

  /** What other threads do to the counters while the accept loop stands still. */
  lemma {:induction false} OthersRun(s: State, steps: seq<Step>)
    requires Run(s, steps).Some? && forall i :: 0 <= i < |steps| ==> OfOthers(steps[i])
    ensures var r := Run(s, steps).value;
            r.pc == s.pc && r.largest == s.largest && r.peak == s.peak && r.connections == s.connections - Outs(steps)
    decreases |steps|
  {
    hide Enabled;
    if steps != [] { OthersRun(s, steps[..|steps| - 1]); }
  }

  /** A connection that is not ahead of the recorded largest leaves it alone, whatever other threads do. */
  lemma {:induction false} LargestStays(s: State, mid: seq<Step>)
    requires s.pc.Cumulated? && s.connections <= s.largest && forall i :: 0 <= i < |mid| ==> OfOthers(mid[i])
    requires Run(s, [Compare] + mid).Some?
    ensures var r := Run(s, [Compare] + mid).value; r.largest == s.largest && r.pc == Noted(s.pc.id)
  {
    hide Run;
    RunNothing(s);
    RunSnoc(s, [], Compare);
    assert [] + [Compare] == [Compare];
    RunConcat(s, [Compare], mid);
    OthersRun(Next(s, Compare), mid);
  }

  /**
   * The recorded largest is no maximum: the counter is read again after the comparison. Whatever other threads do in
   * between, the largest falls if and only if more sessions are counted out than the comparison was ahead.
   */
  lemma {:induction false} LargestFalls(s: State, mid: seq<Step>)
    requires s.pc.Cumulated? && s.connections > s.largest && forall i :: 0 <= i < |mid| ==> OfOthers(mid[i])
    requires Run(s, [Compare] + mid).Some?
    ensures var r := Run(s, [Compare] + mid + [SetLargest]);
            && r.Some? && r.value.largest == s.connections - Outs(mid)
            && (r.value.largest < s.largest <==> Outs(mid) > s.connections - s.largest)
  {
    hide Run;
    RunNothing(s);
    RunSnoc(s, [], Compare);
    assert [] + [Compare] == [Compare];
    RunConcat(s, [Compare], mid);
    var t := Next(s, Compare);
    OthersRun(t, mid);
    RunSnoc(s, [Compare] + mid, SetLargest);
  }

  lemma {:induction false} RunNothing(s: State)
    ensures Run(s, []) == Some(s)
  {
  }

  /** A session admitted, recorded, placed and started. */
  function Admission(fd: nat, id: nat): seq<Step> {
    [Accept(fd), CountIn, Cumulate, Compare, SetLargest, Schedule(0), Start(id)]
  }

  /** The state of a run in which `n` sessions have been admitted so, the last with descriptor `n`. */
  ghost predicate AllStarted(s: State, n: nat) {
    && (s.maxConns > 0 ==> n <= s.maxConns) && !s.disposed && s.connections == n && s.largest == n && s.peak == n &&
       s.pc.Accepting?
    && s.nextId == n && |s.managed| == 2 && |s.counters| == 2
    && (forall id: nat :: id in s.sessions <==> id < n)
    && (forall id :: id in s.sessions ==> s.sessions[id].stage.Managed? && s.sessions[id].fd == id + 1)
  }

  /** Such a session admitted and recorded, but not placed. */
  function Recorded(s: State, n: nat): State {
    s.(connections := n + 1, cumulative := s.cumulative + 1, largest := n + 1, peak := n + 1, pc := Noted(n),
          nextId := n + 1,
       sessions := s.sessions[n := Session(n + 1, 0, Admitted)])
  }

  lemma {:induction false} RecordOne(s: State, n: nat)
    requires AllStarted(s, n) && (s.maxConns > 0 ==> n < s.maxConns)
    ensures Run(s, [Accept(n + 1), CountIn, Cumulate, Compare, SetLargest]) == Some(Recorded(s, n))
  {
    hide Run;
    var t := [Accept(n + 1), CountIn, Cumulate, Compare, SetLargest];
    RunNothing(s);
    assert [] + [t[0]] == t[..1] && t[..1] + [t[1]] == t[..2] && t[..2] + [t[2]] == t[..3] && t[..3] + [t[3]] == t[..4];
    assert t[..4] + [t[4]] == t;
    RunSnoc(s, [], t[0]);
    RunSnoc(s, t[..1], t[1]);
    RunSnoc(s, t[..2], t[2]);
    RunSnoc(s, t[..3], t[3]);
    RunSnoc(s, t[..4], t[4]);
  }

  lemma {:induction false} AdmitOne(s: State, n: nat)
    requires AllStarted(s, n) && (s.maxConns > 0 ==> n < s.maxConns)
    ensures Run(s, Admission(n + 1, n)).Some? && AllStarted(Run(s, Admission(n + 1, n)).value, n + 1)
  {
    hide Run, Put;
    var t := [Accept(n + 1), CountIn, Cumulate, Compare, SetLargest];
    RecordOne(s, n);
    assert t + [Schedule(0)] + [Start(n)] == Admission(n + 1, n);
    RunSnoc(s, t, Schedule(0));
    RunSnoc(s, t + [Schedule(0)], Start(n));
  }

  lemma {:induction false} NoneStarted(s: State)
    requires exists maxConns :: s == Initial(maxConns, 2)
    ensures AllStarted(s, 0)
  {
    forall id: nat
      ensures id !in s.sessions
    {
    }
  }

  // ---------------------------------------------------------------- who is admitted

  /**
   * A connection is let in if and only if the acceptor is not disposed and there is no limit or fewer sessions are
   * live than it allows; a connection that is not leaves everything as it is.
   */
  lemma {:induction false} AdmittedBelowLimit(s: State, fd: nat)
    requires Invariant(s) && Enabled(s, Accept(fd))
    ensures var r := Next(s, Accept(fd));
            && (r.pc == Admitting(fd) <==> !s.disposed && (s.maxConns <= 0 || |Live(s.sessions)| < s.maxConns))
            && r == if r.pc == Admitting(fd) then s.(pc := Admitting(fd)) else s
  {
    hide MapsExact, Descriptors, OnItsWay, Live, Sizes, InUse;
  }

  /** `n` connections, one after the other. */
  function Admissions(n: nat): seq<Step> { if n == 0 then [] else Admissions(n - 1) + Admission(n, n - 1) }

  lemma {:induction false} AdmissionsRun(maxConns: int, n: nat)
    requires maxConns > 0 ==> n <= maxConns
    ensures var r := Run(Initial(maxConns, 2), Admissions(n));
            r.Some? && r.value.maxConns == maxConns && AllStarted(r.value, n)
  {
    hide Run, Admission, AllStarted;
    var s := Initial(maxConns, 2);
    if n == 0 {
      RunNothing(s);
      NoneStarted(s);
    } else {
      AdmissionsRun(maxConns, n - 1);
      AdmitOne(Run(s, Admissions(n - 1)).value, n - 1);
      RunConcat(s, Admissions(n - 1), Admission(n, n - 1));
    }
    LimitFixed(s, Admissions(n));
  }

  /** With two threads every positive limit is reached: that many sessions are live, and the next is turned away. */
  lemma {:induction false} LimitReached(maxConns: nat, fd: nat)
    requires maxConns > 0
    ensures var r := Run(Initial(maxConns, 2), Admissions(maxConns));
            && r.Some? && |Live(r.value.sessions)| == maxConns
            && (Enabled(r.value, Accept(fd)) ==> Next(r.value, Accept(fd)) == r.value)
  {
    hide Run, Admission, MapsExact, Descriptors, OnItsWay, Live, Sizes, InUse;
    AdmissionsRun(maxConns, maxConns);
    InitialInvariant(maxConns, 2);
    RunKeeps(Initial(maxConns, 2), Admissions(maxConns));
  }

  /** Once the acceptor is disposed, at most the connection that has passed the test before is still counted in. */
  lemma {:induction false} DisposedAdmitsNone(s: State, steps: seq<Step>)
    requires s.disposed && Run(s, steps).Some?
    ensures var r := Run(s, steps).value;
            r.disposed && r.nextId + (if r.pc.Admitting? then 1 else 0) <= s.nextId + if s.pc.Admitting? then 1 else 0
    decreases |steps|
  {
    hide Enabled, Placed, Put;
    if steps != [] {
      DisposedAdmitsNone(s, steps[..|steps| - 1]);
      DisposedStep(Run(s, steps[..|steps| - 1]).value, steps[|steps| - 1]);
    }
  }

  lemma {:induction false} DisposedStep(s: State, step: Step)
    requires s.disposed && Enabled(s, step)
    ensures var r := Next(s, step);
            r.disposed && r.nextId + (if r.pc.Admitting? then 1 else 0) <= s.nextId + if s.pc.Admitting? then 1 else 0
  {
    hide Placed, Put, InUse;
  }

  /** Disposing changes nothing else. */
  lemma {:induction false} Disposes(s: State)
    ensures Enabled(s, Dispose) && Next(s, Dispose) == s.(disposed := true)
  {
  }

  /** A session after its end: it is in no map, and its thread's map and counter are what they were before it. */
  lemma {:induction false} StartedAndRemoved(s: State, id: nat)
    requires At(s, id, Scheduled) && s.sessions[id].thread < |s.managed| == |s.counters|
    requires s.sessions[id].fd !in s.managed[s.sessions[id].thread]
    ensures Enabled(s, Start(id)) && Enabled(Next(s, Start(id)), CountOut(id))
    ensures var r := Next(Next(s, Start(id)), CountOut(id));
            && Enabled(r, Remove(id))
            && Next(r, Remove(id)) == WithStage(s, id, Removed).(connections := s.connections - 1)
  {
    var x := s.sessions[id];
    assert Put(s.managed[x.thread], x.fd, id) - {x.fd} == s.managed[x.thread];
    var r := Next(Next(s, Start(id)), CountOut(id));
    assert r.managed[x.thread] == Put(s.managed[x.thread], x.fd, id) && r.counters[x.thread] == s.counters[x.thread] + 1;
    assert Next(r, Remove(id)).managed == s.managed && Next(r, Remove(id)).counters == s.counters;
  }

  /** A session that has its fiber can run to its end, and leaves the counters and every map as if it had not been. */
  lemma {:induction false} SessionEnds(s: State, id: nat)
    requires Invariant(s) && At(s, id, Scheduled)
    ensures Run(s, [Start(id), CountOut(id), Remove(id), Close(id)]) ==
            Some(s.(sessions := s.sessions - {id}, connections := s.connections - 1, closed := s.closed + 1))
  {
    hide Run, Descriptors, OnItsWay, Totals, Sizes;
    var t := [Start(id), CountOut(id), Remove(id), Close(id)];
    NotInMap(s, id);
    StartedAndRemoved(s, id);
    RunFour(s, t);
    assert WithStage(s, id, Removed).sessions - {id} == s.sessions - {id};
  }

  lemma {:induction false} RunFour(s: State, t: seq<Step>)
    requires |t| == 4 && Enabled(s, t[0])
    requires var a := Next(s, t[0]); Enabled(a, t[1]) && Enabled(Next(a, t[1]), t[2])
    requires Enabled(Next(Next(Next(s, t[0]), t[1]), t[2]), t[3])
    ensures Run(s, t) == Some(Next(Next(Next(Next(s, t[0]), t[1]), t[2]), t[3]))
  {
    hide Run, Next, Enabled;
    RunNothing(s);
    assert [] + [t[0]] == t[..1] && t[..1] + [t[1]] == t[..2] && t[..2] + [t[2]] == t[..3] && t[..3] + [t[3]] == t;
    RunSnoc(s, [], t[0]);
    RunSnoc(s, t[..1], t[1]);
    RunSnoc(s, t[..2], t[2]);
    RunSnoc(s, t[..3], t[3]);
  }

  lemma {:induction false} ThirdFalls(s: State)
    requires AllStarted(s, 2) && s.maxConns == 0
    ensures var r := Run(s, [Accept(3), CountIn, Cumulate, Compare, CountOut(0), CountOut(1)]);
            && r.Some? && r.value.largest == 2 && r.value.peak == 3 && r.value.connections == 1 && r.value.pc.Exceeding?
  {
    hide Run;
    var t := [Accept(3), CountIn, Cumulate, Compare, CountOut(0), CountOut(1)];
    RunNothing(s);
    assert [] + [t[0]] == t[..1] && t[..1] + [t[1]] == t[..2] && t[..2] + [t[2]] == t[..3] && t[..3] + [t[3]] == t[..4];
    assert t[..4] + [t[4]] == t[..5] && t[..5] + [t[5]] == t;
    RunSnoc(s, [], t[0]);
    RunSnoc(s, t[..1], t[1]);
    RunSnoc(s, t[..2], t[2]);
    RunSnoc(s, t[..3], t[3]);
    RunSnoc(s, t[..4], t[4]);
    RunSnoc(s, t[..5], t[5]);
  }

  /** Three connections, of which the first two end while the third is being recorded. */
  const FALLING: seq<Step> :=
    [Accept(1), CountIn, Cumulate, Compare, SetLargest, Schedule(0), Start(0),
     Accept(2), CountIn, Cumulate, Compare, SetLargest, Schedule(0), Start(1),
     Accept(3), CountIn, Cumulate, Compare, CountOut(0), CountOut(1)]

  /** After this run from the start, with two threads and no limit, recording the third connection lowers the largest. */
  lemma {:induction false} LargestMayFall()
    ensures var r := Run(Initial(0, 2), FALLING);
            && r.Some? && r.value.largest == 2 && r.value.peak == 3
            && Enabled(r.value, SetLargest) && Next(r.value, SetLargest).largest == 1
  {
    hide Run;
    var s := Initial(0, 2);
    var t := [Accept(3), CountIn, Cumulate, Compare, CountOut(0), CountOut(1)];
    AdmissionsRun(0, 2);
    TwoAdmissions();
    RunConcat(s, Admissions(2), t);
    ThirdFalls(Run(s, Admissions(2)).value);
  }

  lemma {:induction false} TwoAdmissions()
    ensures FALLING == Admissions(2) + [Accept(3), CountIn, Cumulate, Compare, CountOut(0), CountOut(1)]
  {
    assert Admissions(0) == [] && Admissions(1) == Admission(1, 0);
  }

  /** The accept loop is between counting a connection in and recording the largest. */
  predicate Recording(pc: Pc) { pc.CountedIn? || pc.Cumulated? || pc.Exceeding? }

  /** No session is counted out while the accept loop is recording one. */
  ghost predicate Undisturbed(s: State, steps: seq<Step>) {
    forall i :: 0 <= i < |steps| && steps[i].CountOut? && Run(s, steps[..i]).Some? ==>
        !Recording(Run(s, steps[..i]).value.pc)
  }

  /** What the recorded largest is then, at each place of the loop. */
  predicate LargestRecorded(s: State) {
    s.peak == if s.pc.CountedIn? || s.pc.Cumulated? then Max(s.largest, s.connections)
              else if s.pc.Exceeding? then s.connections else s.largest
  }

  /** Then the recorded largest is the true maximum whenever the loop is not recording. */
  lemma {:induction false} LargestIsPeak(maxConns: int, threads: nat, steps: seq<Step>)
    requires var s := Initial(maxConns, threads); Undisturbed(s, steps) && Run(s, steps).Some?
    ensures var r := Run(Initial(maxConns, threads), steps).value;
            LargestRecorded(r) && (!Recording(r.pc) ==> r.largest == r.peak)
    decreases |steps|
  {
    hide Enabled, Next;
    if steps != [] {
      var n := |steps| - 1;
      var t := steps[..n];
      assert forall i :: 0 <= i <= n ==> t[..i] == steps[..i];
      LargestIsPeak(maxConns, threads, t);
      LargestStep(Run(Initial(maxConns, threads), t).value, steps[n]);
    }
  }

  lemma {:induction false} LargestStep(s: State, step: Step)
    requires LargestRecorded(s) && Enabled(s, step) && (step.CountOut? ==> !Recording(s.pc))
    ensures LargestRecorded(Next(s, step))
  {
    hide Placed, Put;
  }

  // ---------------------------------------------------------------- one processor

  /** With one thread the first connection is admitted and counted, and cannot be placed: the division is by zero. */
  lemma {:induction false} OneThreadFails(maxConns: int, fd: nat, fid: nat)
    ensures var r := Run(Initial(maxConns, 1), [Accept(fd), CountIn, Cumulate, Compare, SetLargest]);
            r.Some? && r.value.pc.Noted? && r.value.connections == 1 && |r.value.managed| == 1 && Placed(fid, 1).None?
  {
    hide Run;
    var s := Initial(maxConns, 1);
    var t := [Accept(fd), CountIn, Cumulate, Compare, SetLargest];
    RunNothing(s);
    assert [] + [t[0]] == t[..1] && t[..1] + [t[1]] == t[..2] && t[..2] + [t[2]] == t[..3] && t[..3] + [t[3]] == t[..4];
    assert t[..4] + [t[4]] == t;
    RunSnoc(s, [], t[0]);
    RunSnoc(s, t[..1], t[1]);
    RunSnoc(s, t[..2], t[2]);
    RunSnoc(s, t[..3], t[3]);
    RunSnoc(s, t[..4], t[4]);
  }

  lemma {:induction false} PeakStep(s: State, step: Step)
    requires Enabled(s, step)
    ensures var r := Next(s, step);
            && r.peak >= s.peak && (s.peak >= s.connections ==> r.peak >= r.connections)
            && (r.peak == s.peak || r.peak == r.connections)
  {
  }

  /** The connections after the first `i` steps of a run. */
  function ConnectionsAt(s: State, steps: seq<Step>, i: nat): int
    requires i <= |steps|
  {
    var r := Run(s, steps[..i]);
    if r.Some? then r.value.connections else 0
  }

  /** The peak is the most connections there have been at any time of a run, and there were that many at time `k`. */
  lemma {:induction false} PeakIsMaximum(s: State, steps: seq<Step>) returns (k: nat)
    requires Run(s, steps).Some? && s.peak == s.connections >= 0
    ensures k <= |steps| && ConnectionsAt(s, steps, k) == Run(s, steps).value.peak
    ensures forall i :: 0 <= i <= |steps| ==> ConnectionsAt(s, steps, i) <= Run(s, steps).value.peak
    decreases |steps|
  {
    hide Enabled, Next;
    assert steps[..|steps|] == steps;
    if steps == [] {
      k := 0;
    } else {
      var n := |steps| - 1;
      var t := steps[..n];
      k := PeakIsMaximum(s, t);
      assert t[..n] == t;
      assert forall i :: 0 <= i <= n ==> t[..i] == steps[..i];
      assert forall i :: 0 <= i <= n ==> ConnectionsAt(s, t, i) == ConnectionsAt(s, steps, i);
      assert ConnectionsAt(s, t, n) <= Run(s, t).value.peak;
      PeakStep(Run(s, t).value, steps[n]);
      if Run(s, steps).value.peak != Run(s, t).value.peak { k := |steps|; }
    }
  }

  /** The limit of every run is the one it started with. */
  lemma {:induction false} LimitFixed(s: State, steps: seq<Step>)
    ensures Run(s, steps).Some? ==> Run(s, steps).value.maxConns == s.maxConns
    decreases |steps|
  {
    hide Enabled;
    if steps != [] { LimitFixed(s, steps[..|steps| - 1]); }
  }

  /** `getManagedSessionCount`: the sum over the threads is the number of sessions in the maps. */
  function Sum(counters: seq<int>): int {
    if counters == [] then 0 else Sum(counters[..|counters| - 1]) + counters[|counters| - 1]
  }

  method GetManagedSessionCount(counters: seq<int>) returns (count: int)
    ensures count == Sum(counters)
  {
    count := 0;
    var i := 0;
    while i < |counters|
      invariant 0 <= i <= |counters| && count == Sum(counters[..i])
    {
      assert counters[..i + 1][..i] == counters[..i];
      count := count + counters[i];
      i := i + 1;
    }
    assert counters[..i] == counters;
  }

  /** The sessions in the maps of the first `n` threads. */
  function InMaps(s: State,
                  n: nat): set<nat> { set id | id in s.sessions && InMap(s.sessions[id]) && s.sessions[id].thread < n }

  function OnThread(s: State, t: nat): set<nat> {
    set id | id in s.sessions && InMap(s.sessions[id]) && s.sessions[id].thread == t
  }

  /** The descriptors a map has for sessions below `n`. */
  function KeysBelow(m: map<nat, nat>, n: nat): set<nat> { set fd | fd in m && m[fd] < n }

  function Below(ids: set<nat>, n: nat): set<nat> { set id | id in ids && id < n }

  /** As many entries as sessions, if each session has one under its descriptor and each entry has its session. */
  lemma {:induction false} OneEntryEach(m: map<nat, nat>, ids: set<nat>, fds: map<nat, nat>, n: nat)
    requires forall id :: id in ids ==> id in fds && fds[id] in m && m[fds[id]] == id
    requires forall fd :: fd in m ==> m[fd] in ids && fds[m[fd]] == fd
    ensures |Below(ids, n)| == |KeysBelow(m, n)|
  {
    if n == 0 {
      assert Below(ids, 0) == {} && KeysBelow(m, 0) == {};
    } else {
      var id: nat := n - 1;
      OneEntryEach(m, ids, fds, n - 1);
      if id in ids {
        assert Below(ids, n) == Below(ids, n - 1) + {id};
        assert KeysBelow(m, n) == KeysBelow(m, n - 1) + {fds[id]};
      } else {
        assert Below(ids, n) == Below(ids, n - 1);
        assert KeysBelow(m, n) == KeysBelow(m, n - 1);
      }
    }
  }

  function Descriptor(sessions: map<nat, Session>): map<nat, nat> { map id | id in sessions :: sessions[id].fd }

  lemma {:induction false} MapIsThread(s: State, t: nat)
    requires MapsExact(s) && OnItsWay(s) && t < |s.managed|
    ensures |OnThread(s, t)| == |s.managed[t]|
  {
    OneEntryEach(s.managed[t], OnThread(s, t), Descriptor(s.sessions), s.nextId);
    assert Below(OnThread(s, t), s.nextId) == OnThread(s, t);
    assert KeysBelow(s.managed[t], s.nextId) == s.managed[t].Keys;
  }

  lemma {:induction false} SumIsManaged(s: State, n: nat)
    requires Invariant(s) && n <= |s.counters|
    ensures Sum(s.counters[..n]) == |InMaps(s, n)|
  {
    hide Descriptors, OnItsWay, Totals, MapsExact;
    if n == 0 {
      assert InMaps(s, 0) == {};
    } else {
      SumIsManaged(s, n - 1);
      assert s.counters[..n][..n - 1] == s.counters[..n - 1];
      MapIsThread(s, n - 1);
      assert InMaps(s, n) == InMaps(s, n - 1) + OnThread(s, n - 1);
    }
  }
}
