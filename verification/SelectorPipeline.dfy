/** The CSV loader, the worker joiner with its children, and the runner that
    joins their errors, as one system of interleaved steps. */
module SelectorPipeline {
  import opened Tree
  import opened Sequences

  /** `input` are the rows the loader accepts, by number; channels and
      permits are sized by `size`, which is at least one. */
  datatype Setup = Setup(input: seq<nat>, size: nat)

  datatype Loader = Loader(sent: nat, entries: seq<nat>, closed: bool)

  datatype JoinPhase = Receiving | Acquiring(row: nat) | Finishing | Drained | Closed

  /** `started` and `dropped` are histories. */
  datatype Joiner = Joiner(phase: JoinPhase, started: seq<nat>, dropped: seq<nat>)

  datatype WorkPhase = Invoking | Sending | Releasing | Gone

  datatype Worker = Worker(phase: WorkPhase, failed: bool)

  /** `live` are the workers that hold a permit. */
  datatype Shop = Shop(permits: nat, live: set<nat>, workers: seq<Worker>, errors: seq<nat>, closed: bool)

  datatype Runner = Runner(joined: seq<nat>, done: bool)

  datatype State = State(cancelled: bool, load: Loader, join: Joiner, shop: Shop, run: Runner)

  datatype Action =
    | Cancel
    | Send | Stop | End
    | Receive | SeeClosed | Acquire | AcquireFails | AcquireAll | CloseErrors
    | Return(i: nat, failed: bool) | SendError(i: nat) | Release(i: nat)
    | JoinError | SeeErrorsClosed

  function Init(k: Setup): State {
    State(false, Loader(0, [], false), Joiner(Receiving, [], []), Shop(k.size, {}, [], [], false), Runner([], false))
  }

  /** The loader; a read error ends the rows like their end does. */
  function LoadStep(k: Setup, s: State, a: Action): Option<State> {
    var l := s.load;
    match a
    case Send =>
      if !l.closed && l.sent < |k.input| && |l.entries| < k.size then
        Some(s.(load := l.(sent := l.sent + 1, entries := l.entries + [k.input[l.sent]])))
      else None
    case Stop => if !l.closed && l.sent < |k.input| && s.cancelled then Some(s.(load := l.(closed := true))) else None
    case End => if !l.closed && l.sent == |k.input| then Some(s.(load := l.(closed := true))) else None
    case _ => None
  }

  /** Hands the received row and one permit to a new worker. */
  function Start(s: State, row: nat): State
    requires s.shop.permits > 0
  {
    var h := s.shop;
    s.(join := s.join.(phase := Receiving, started := s.join.started + [row]),
       shop := h.(permits := h.permits - 1, live := h.live + {|h.workers|},
                  workers := h.workers + [Worker(Invoking, false)]))
  }

  function JoinStep(k: Setup, s: State, a: Action): Option<State> {
    var c, l := s.join, s.load;
    match a
    case Receive =>
      if c.phase.Receiving? && l.entries != [] then
        Some(s.(load := l.(entries := l.entries[1..]), join := c.(phase := Acquiring(l.entries[0]))))
      else None
    case SeeClosed =>
      if c.phase.Receiving? && l.entries == [] && l.closed then Some(s.(join := c.(phase := Finishing))) else None
    case Acquire => if c.phase.Acquiring? && s.shop.permits > 0 then Some(Start(s, c.phase.row)) else None
    case AcquireFails =>
      if c.phase.Acquiring? && s.cancelled then
        Some(s.(join := c.(phase := Finishing, dropped := [c.phase.row])))
      else None
    case AcquireAll =>
      if c.phase.Finishing? && s.shop.permits == k.size then
        Some(s.(join := c.(phase := Drained), shop := s.shop.(permits := 0)))
      else None
    case CloseErrors =>
      if c.phase.Drained? then Some(s.(join := c.(phase := Closed), shop := s.shop.(closed := true))) else None
    case _ => None
  }

  predicate InPhase(h: Shop, i: nat, phase: WorkPhase) {
    i < |h.workers| && h.workers[i].phase == phase
  }

  /** A worker sends an error only if its child failed. */
  function WorkStep(k: Setup, h: Shop, a: Action): Option<Shop> {
    match a
    case Return(i, failed) =>
      if InPhase(h, i, Invoking) then
        Some(h.(workers := h.workers[i := Worker(if failed then Sending else Releasing, failed)]))
      else None
    case SendError(i) =>
      if InPhase(h, i, Sending) && |h.errors| < k.size then
        Some(h.(workers := h.workers[i := Worker(Releasing, true)], errors := h.errors + [i]))
      else None
    case Release(i) =>
      if InPhase(h, i, Releasing) then
        Some(h.(workers := h.workers[i := h.workers[i].(phase := Gone)],
                permits := h.permits + 1, live := h.live - {i}))
      else None
    case _ => None
  }

  function RunStep(s: State, a: Action): Option<State> {
    match a
    case Cancel => if s.cancelled then None else Some(s.(cancelled := true))
    case JoinError =>
      if !s.run.done && s.shop.errors != [] then
        Some(s.(shop := s.shop.(errors := s.shop.errors[1..]),
                run := s.run.(joined := s.run.joined + [s.shop.errors[0]])))
      else None
    case SeeErrorsClosed =>
      if !s.run.done && s.shop.errors == [] && s.shop.closed then Some(s.(run := s.run.(done := true))) else None
    case _ => None
  }

  function Next(k: Setup, s: State, a: Action): Option<State> {
    match a
    case Send | Stop | End => LoadStep(k, s, a)
    case Receive | SeeClosed | Acquire | AcquireFails | AcquireAll | CloseErrors => JoinStep(k, s, a)
    case Return(_, _) | SendError(_) | Release(_) =>
      var h := WorkStep(k, s.shop, a);
      if h.Some? then Some(s.(shop := h.value)) else None
    case _ => RunStep(s, a)
  }

  ghost predicate Follows(k: Setup, s: State, u: State) {
    exists a :: Next(k, s, a) == Some(u)
  }

  ghost predicate Schedule(k: Setup, trace: seq<State>) {
    && trace != [] && trace[0] == Init(k)
    && forall i | 0 <= i < |trace| - 1 :: Follows(k, trace[i], trace[i + 1])
  }

  // ---- The invariant ----

  function Held(c: Joiner): seq<nat> {
    if c.phase.Acquiring? then [c.phase.row] else []
  }

  /** Every row sent was started, is held, was dropped or still waits, in order. */
  ghost predicate Rows(k: Setup, cancelled: bool, l: Loader, c: Joiner) {
    && l.sent <= |k.input| && |l.entries| <= k.size
    && c.started + Held(c) + c.dropped + l.entries == k.input[..l.sent]
    && |c.dropped| <= 1 && (c.dropped != [] ==> cancelled && !c.phase.Receiving? && !c.phase.Acquiring?)
    && (l.closed ==> cancelled || l.sent == |k.input|)
    && (!c.phase.Receiving? && !c.phase.Acquiring? ==> cancelled || (l.closed && l.entries == []))
  }

  ghost predicate Permits(k: Setup, c: Joiner, h: Shop) {
    && (h.closed <==> c.phase.Closed?)
    && |c.started| == |h.workers|
    && (forall i :: i in h.live <==> 0 <= i < |h.workers| && !h.workers[i].phase.Gone?)
    && if c.phase.Drained? || c.phase.Closed? then h.permits == 0 && h.live == {} else h.permits + |h.live| == k.size
  }

  predicate HasSent(w: Worker) {
    w.failed && !w.phase.Sending?
  }

  ghost predicate Errors(k: Setup, h: Shop, r: Runner) {
    && |h.errors| <= k.size
    && (r.done ==> h.closed && h.errors == [])
    && (forall i | 0 <= i < |h.workers| :: (h.workers[i].phase.Invoking? ==> !h.workers[i].failed)
                                           && (h.workers[i].phase.Sending? ==> h.workers[i].failed))
    && forall i :: multiset(r.joined + h.errors)[i] == Bit(0 <= i < |h.workers| && HasSent(h.workers[i]))
  }

  ghost predicate Inv(k: Setup, s: State) {
    && k.size >= 1 && Rows(k, s.cancelled, s.load, s.join)
    && Permits(k, s.join, s.shop) && Errors(k, s.shop, s.run)
  }

  lemma LoadKeeps(k: Setup, s: State, a: Action)
    requires Inv(k, s) && LoadStep(k, s, a).Some?
    ensures Inv(k, LoadStep(k, s, a).value)
  {
  }

  lemma JoinKeepsRows(k: Setup, s: State, a: Action)
    requires Rows(k, s.cancelled, s.load, s.join) && JoinStep(k, s, a).Some?
    ensures var u := JoinStep(k, s, a).value; Rows(k, u.cancelled, u.load, u.join)
  {
  }

  lemma StartKeeps(k: Setup, s: State, row: nat)
    requires Permits(k, s.join, s.shop) && Errors(k, s.shop, s.run) && s.shop.permits > 0 && s.join.phase.Acquiring?
    ensures Permits(k, Start(s, row).join, Start(s, row).shop) && Errors(k, Start(s, row).shop, s.run)
  {
  }

  lemma JoinKeeps(k: Setup, s: State, a: Action)
    requires Inv(k, s) && JoinStep(k, s, a).Some?
    ensures Inv(k, JoinStep(k, s, a).value)
  {
    JoinKeepsRows(k, s, a);
    if a.Acquire? {
      StartKeeps(k, s, s.join.phase.row);
    }
  }

  lemma WorkKeepsPermits(k: Setup, c: Joiner, h: Shop, a: Action)
    requires Permits(k, c, h) && WorkStep(k, h, a).Some?
    ensures Permits(k, c, WorkStep(k, h, a).value)
  {
  }

  lemma SendKeepsErrors(k: Setup, c: Joiner, h: Shop, r: Runner, i: nat)
    requires Permits(k, c, h) && Errors(k, h, r) && WorkStep(k, h, SendError(i)).Some?
    ensures Errors(k, WorkStep(k, h, SendError(i)).value, r)
  {
    assert i in h.live;
    assert r.joined + (h.errors + [i]) == r.joined + h.errors + [i];
  }

  lemma WorkKeepsErrors(k: Setup, c: Joiner, h: Shop, r: Runner, a: Action)
    requires Permits(k, c, h) && Errors(k, h, r) && WorkStep(k, h, a).Some?
    ensures Errors(k, WorkStep(k, h, a).value, r)
  {
    if a.SendError? {
      SendKeepsErrors(k, c, h, r, a.i);
    } else {
      assert a.i in h.live;
    }
  }

  lemma RunKeeps(k: Setup, s: State, a: Action)
    requires Inv(k, s) && RunStep(s, a).Some?
    ensures Inv(k, RunStep(s, a).value)
  {
    if a.JoinError? {
      var u := RunStep(s, a).value;
      assert s.run.joined + s.shop.errors == u.run.joined + u.shop.errors;
    }
  }

  lemma InvIsInductive(k: Setup, s: State, a: Action)
    requires Inv(k, s) && Next(k, s, a).Some?
    ensures Inv(k, Next(k, s, a).value)
  {
    match a {
      case Send | Stop | End => LoadKeeps(k, s, a);
      case Receive | SeeClosed | Acquire | AcquireFails | AcquireAll | CloseErrors => JoinKeeps(k, s, a);
      case Return(_, _) | SendError(_) | Release(_) =>
        WorkKeepsPermits(k, s.join, s.shop, a);
        WorkKeepsErrors(k, s.join, s.shop, s.run, a);
      case _ => RunKeeps(k, s, a);
    }
  }

  lemma {:induction false} ScheduleKeepsInv(k: Setup, trace: seq<State>, n: nat)
    requires k.size >= 1 && Schedule(k, trace) && n < |trace|
    ensures Inv(k, trace[n])
  {
    if n > 0 {
      ScheduleKeepsInv(k, trace, n - 1);
      assert Follows(k, trace[n - 1], trace[n]);
      var a :| Next(k, trace[n - 1], a) == Some(trace[n]);
      InvIsInductive(k, trace[n - 1], a);
    }
  }

  // ---- What every run guarantees ----

  /** At most `size` children run, each for its own row in order; at most one
      received row is dropped, and only when cancelled. A run that ends without
      cancellation has started every row exactly once, and joined exactly the
      errors of the children that failed, each once. */
  lemma RowsRunOnce(k: Setup, trace: seq<State>, n: nat)
    requires k.size >= 1 && Schedule(k, trace) && n < |trace|
    ensures var s := trace[n];
      && |s.shop.live| <= k.size && |s.shop.workers| == |s.join.started|
      && s.load.sent <= |k.input|
      && s.join.started + Held(s.join) + s.join.dropped + s.load.entries == k.input[..s.load.sent]
      && |s.join.dropped| <= 1 && (s.join.dropped != [] ==> s.cancelled)
      && (s.run.done ==>
            forall i :: multiset(s.run.joined)[i] == Bit(0 <= i < |s.join.started| && s.shop.workers[i].failed))
      && (s.run.done && !s.cancelled ==> s.join.started == k.input)
  {
    ScheduleKeepsInv(k, trace, n);
    var s := trace[n];
    if s.run.done {
      assert s.run.joined + s.shop.errors == s.run.joined;
      forall i | 0 <= i < |s.shop.workers| ensures s.shop.workers[i].phase.Gone? {
        assert i !in s.shop.live;
      }
    }
  }

  /** The child of worker `i` has ended, well or not. */
  predicate Ended(h: Shop, i: nat, failed: bool) {
    i < |h.workers| && !h.workers[i].phase.Invoking? && h.workers[i].failed == failed
  }

  lemma WorkKeepsEnd(k: Setup, h: Shop, a: Action, i: nat, failed: bool)
    requires WorkStep(k, h, a).Some? && Ended(h, i, failed) && (InPhase(h, i, Sending) ==> failed)
    ensures Ended(WorkStep(k, h, a).value, i, failed)
  {
  }

  lemma EndedStays(k: Setup, s: State, a: Action, i: nat, failed: bool)
    requires Next(k, s, a).Some? && Ended(s.shop, i, failed) && (InPhase(s.shop, i, Sending) ==> failed)
    ensures Ended(Next(k, s, a).value.shop, i, failed)
  {
    match a {
      case Return(_, _) | SendError(_) | Release(_) => WorkKeepsEnd(k, s.shop, a, i, failed);
      case _ =>
    }
  }

  lemma FollowsKeepsEnd(k: Setup, s: State, u: State, i: nat, failed: bool)
    requires Follows(k, s, u) && Ended(s.shop, i, failed) && (InPhase(s.shop, i, Sending) ==> failed)
    ensures Ended(u.shop, i, failed)
  {
    var a :| Next(k, s, a) == Some(u);
    EndedStays(k, s, a, i, failed);
  }

  lemma SenderFailed(k: Setup, trace: seq<State>, n: nat, i: nat)
    requires k.size >= 1 && Schedule(k, trace) && n < |trace| && InPhase(trace[n].shop, i, Sending)
    ensures trace[n].shop.workers[i].failed
  {
    ScheduleKeepsInv(k, trace, n);
  }

  predicate KeepsEnd(trace: seq<State>, n: nat, i: nat, failed: bool) {
    n + 1 < |trace| && (Ended(trace[n].shop, i, failed) ==> Ended(trace[n + 1].shop, i, failed))
  }

  lemma StepKeepsEnd(k: Setup, trace: seq<State>, n: nat, i: nat, failed: bool)
    requires k.size >= 1 && Schedule(k, trace) && n + 1 < |trace|
    ensures KeepsEnd(trace, n, i, failed)
  {
    assert Follows(k, trace[n], trace[n + 1]);
    if InPhase(trace[n].shop, i, Sending) { SenderFailed(k, trace, n, i); }
    if Ended(trace[n].shop, i, failed) { FollowsKeepsEnd(k, trace[n], trace[n + 1], i, failed); }
  }

  lemma {:induction false} StaysEnded(trace: seq<State>, m: nat, n: nat, i: nat, failed: bool)
    requires m <= n < |trace| && Ended(trace[m].shop, i, failed)
    requires forall l: nat | m <= l < n :: KeepsEnd(trace, l, i, failed)
    ensures Ended(trace[n].shop, i, failed)
  {
    if m < n {
      StaysEnded(trace, m, n - 1, i, failed);
      assert KeepsEnd(trace, n - 1, i, failed);
    }
  }

  /** How a child ends is what the runner learns: by the end of the run it has
      joined one error of a child that failed, and none of one that did not. */
  lemma FailuresAreJoined(k: Setup, trace: seq<State>, m: nat, n: nat, i: nat, failed: bool)
    requires k.size >= 1 && Schedule(k, trace) && m < n < |trace| && trace[n].run.done
    requires InPhase(trace[m].shop, i, Invoking) && Next(k, trace[m], Return(i, failed)) == Some(trace[m + 1])
    ensures multiset(trace[n].run.joined)[i] == Bit(failed)
  {
    forall l: nat | m + 1 <= l < n ensures KeepsEnd(trace, l, i, failed) {
      StepKeepsEnd(k, trace, l, i, failed);
    }
    StaysEnded(trace, m + 1, n, i, failed);
    RowsRunOnce(k, trace, n);
  }

  // ---- No deadlock, and an end ----

  /** Once cancelled, loader and dispatcher can give up wherever they wait; the
      dispatcher then starts nothing more, and drops the one row it holds. */
  lemma CancelEndsRows(k: Setup, trace: seq<State>, n: nat)
    requires k.size >= 1 && Schedule(k, trace) && n < |trace|
    ensures var s := trace[n]; var u := Next(k, s, AcquireFails);
      && (Next(k, s, Stop).Some? <==> s.cancelled && !s.load.closed && s.load.sent < |k.input|)
      && (u.Some? <==> s.cancelled && s.join.phase.Acquiring?)
      && (u.Some? ==> u.value.join == Joiner(Finishing, s.join.started, [s.join.phase.row]) && u.value.shop == s.shop)
  {
    ScheduleKeepsInv(k, trace, n);
  }

  lemma WorkerWaitsWhenFull(k: Setup, s: State, i: nat)
    requires Inv(k, s) && InPhase(s.shop, i, Sending)
    ensures Next(k, s, SendError(i)).None? <==> |s.shop.errors| == k.size
  {
    assert |s.shop.errors| <= k.size;
  }

  lemma OthersWaitWhenFull(k: Setup, s: State)
    requires Inv(k, s)
    ensures !s.load.closed && s.load.sent < |k.input| ==>
              (Next(k, s, Send).None? <==> |s.load.entries| == k.size)
    ensures s.join.phase.Acquiring? ==> (Next(k, s, Acquire).None? <==> |s.shop.live| == k.size)
  {
    assert |s.load.entries| <= k.size;
  }

  /** Nobody waits without need: the loader for room in a channel of `size` rows,
      the dispatcher for one of `size` running children to end, and a worker for
      room for its error. */
  lemma WaitsOnlyWhenFull(k: Setup, trace: seq<State>, n: nat)
    requires k.size >= 1 && Schedule(k, trace) && n < |trace|
    ensures var s := trace[n];
      && (!s.load.closed && s.load.sent < |k.input| ==> (Next(k, s, Send).None? <==> |s.load.entries| == k.size))
      && (s.join.phase.Acquiring? ==> (Next(k, s, Acquire).None? <==> |s.shop.live| == k.size))
      && forall i | InPhase(s.shop, i, Sending) :: Next(k, s, SendError(i)).None? <==> |s.shop.errors| == k.size
  {
    ScheduleKeepsInv(k, trace, n);
    var s := trace[n];
    OthersWaitWhenFull(k, s);
    forall i | InPhase(s.shop, i, Sending)
      ensures Next(k, s, SendError(i)).None? <==> |s.shop.errors| == k.size
    {
      WorkerWaitsWhenFull(k, s, i);
    }
  }

  predicate Final(s: State) {
    s.run.done && s.load.closed
  }

  ghost predicate CanMove(k: Setup, s: State) {
    exists a: Action :: !a.Cancel? && Next(k, s, a).Some?
  }

  lemma WorkerCanMove(k: Setup, s: State, i: nat)
    requires Inv(k, s) && i in s.shop.live
    ensures CanMove(k, s)
  {
    var a := match s.shop.workers[i].phase {
      case Invoking => Return(i, false)
      case Sending => if |s.shop.errors| < k.size then SendError(i) else JoinError
      case _ => Release(i)
    };
    assert !a.Cancel? && Next(k, s, a).Some?;
  }

  lemma LoaderCanMove(k: Setup, s: State)
    requires Inv(k, s) && !s.load.closed && (s.cancelled || s.load.entries == [])
    ensures CanMove(k, s)
  {
    var a := if s.load.sent == |k.input| then End else if s.cancelled then Stop else Send;
    assert !a.Cancel? && Next(k, s, a).Some?;
  }

  /** Whatever the schedule and whenever it was cancelled, a run that has not
      ended has a step of its own to take. */
  lemma NeverStuck(k: Setup, trace: seq<State>, n: nat)
    requires k.size >= 1 && Schedule(k, trace) && n < |trace| && !Final(trace[n])
    ensures CanMove(k, trace[n])
  {
    ScheduleKeepsInv(k, trace, n);
    var s := trace[n];
    if i :| i in s.shop.live {
      WorkerCanMove(k, s, i);
    } else if s.join.phase.Receiving? && s.load.entries == [] && !s.load.closed {
      LoaderCanMove(k, s);
    } else if s.join.phase.Closed? && s.run.done {
      LoaderCanMove(k, s);
    } else {
      assert s.shop.live == {};
      var a := match s.join.phase {
        case Receiving => if s.load.entries != [] then Receive else SeeClosed
        case Acquiring(_) => Acquire
        case Finishing => AcquireAll
        case Drained => CloseErrors
        case Closed => if s.shop.errors != [] then JoinError else SeeErrorsClosed
      };
      assert !a.Cancel? && Next(k, s, a).Some?;
    }
  }

  function WorkRank(ws: seq<Worker>): nat {
    if ws == [] then 0
    else WorkRank(ws[..|ws| - 1]) + match ws[|ws| - 1].phase
                                    case Invoking => 4
                                    case Sending => 3
                                    case Releasing => 1
                                    case Gone => 0
  }

  function JoinRank(p: JoinPhase): nat {
    match p
    case Receiving => 3
    case Acquiring(_) => 8
    case Finishing => 2
    case Drained => 1
    case Closed => 0
  }

  /** How many steps are left at most. */
  function Rank(k: Setup, s: State): int {
    Bit(!s.cancelled) + 7 * (|k.input| - s.load.sent) + 6 * |s.load.entries| + Bit(!s.load.closed)
    + JoinRank(s.join.phase) + WorkRank(s.shop.workers) + |s.shop.errors| + Bit(!s.run.done)
  }

  lemma {:induction false} WorkRankUpdate(ws: seq<Worker>, i: nat, w: Worker)
    requires i < |ws|
    ensures WorkRank(ws[i := w]) + WorkRank([ws[i]]) == WorkRank(ws) + WorkRank([w])
  {
    var k := |ws| - 1;
    if i < k {
      assert ws[i := w][..k] == ws[..k][i := w];
      WorkRankUpdate(ws[..k], i, w);
    } else {
      assert ws[i := w][..k] == ws[..k];
    }
  }

  lemma WorkDescends(k: Setup, h: Shop, a: Action)
    requires WorkStep(k, h, a).Some?
    ensures var u := WorkStep(k, h, a).value;
      WorkRank(u.workers) + |u.errors| < WorkRank(h.workers) + |h.errors|
  {
    WorkRankUpdate(h.workers, a.i, WorkStep(k, h, a).value.workers[a.i]);
  }

  lemma JoinDescends(k: Setup, s: State, a: Action)
    requires JoinStep(k, s, a).Some?
    ensures Rank(k, JoinStep(k, s, a).value) < Rank(k, s)
  {
  }

  lemma StepsDescend(k: Setup, s: State, a: Action)
    requires Next(k, s, a).Some?
    ensures Rank(k, Next(k, s, a).value) < Rank(k, s)
  {
    match a {
      case Return(_, _) | SendError(_) | Release(_) => WorkDescends(k, s.shop, a);
      case Receive | SeeClosed | Acquire | AcquireFails | AcquireAll | CloseErrors => JoinDescends(k, s, a);
      case _ =>
    }
  }

  lemma {:induction false} RankFalls(k: Setup, trace: seq<State>, n: nat)
    requires k.size >= 1 && Schedule(k, trace) && n < |trace|
    ensures Rank(k, trace[n]) + n <= Rank(k, trace[0])
  {
    if n > 0 {
      RankFalls(k, trace, n - 1);
      assert Follows(k, trace[n - 1], trace[n]);
      var a :| Next(k, trace[n - 1], a) == Some(trace[n]);
      StepsDescend(k, trace[n - 1], a);
    }
  }

  /** No run is longer than six steps plus seven per row. */
  lemma RunsAreBounded(k: Setup, trace: seq<State>)
    requires k.size >= 1 && Schedule(k, trace)
    ensures |trace| <= 7 + 7 * |k.input|
  {
    RankFalls(k, trace, |trace| - 1);
    ScheduleKeepsInv(k, trace, |trace| - 1);
  }
}
