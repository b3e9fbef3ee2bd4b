/** The in-process walk with its callback running in several goroutines at once,
    which append to one list of errors without a lock. */
module ScanWalk {
  import opened Tree
  import opened Sequences
  import opened Scanners

  /** A callback that records an error reads the list (its length `seen`, after
      `at` earlier writes) and writes it back later, one error longer. */
  datatype Phase = Waiting | Walking | Appending(seen: nat, at: nat) | Done | Stopped

  /** `stores` counts the writes to the list; `overlapped` says that one of them
      had another between its own read and write. */
  datatype State = State(phases: seq<Phase>, errs: nat, stores: nat, overlapped: bool, sent: seq<Row>, cancelled: bool)

  /** What the callback does with one visit. */
  datatype Effect = Sends(row: Row) | Errs | Drops

  function EffectOf(v: Visit): Effect {
    if Fails(v) then Errs else if Walked(v).Some? then Sends(Walked(v).value) else Drops
  }

  function Effects(visits: seq<Visit>): (effects: seq<Effect>)
    ensures |effects| == |visits| && forall i | 0 <= i < |visits| :: effects[i] == EffectOf(visits[i])
  {
    seq(|visits|, i requires 0 <= i < |visits| => EffectOf(visits[i]))
  }

  datatype Action = Cancel | Start(i: nat) | Drop(i: nat) | Load(i: nat) | Store(i: nat) | Send(i: nat) | Stop(i: nat)

  function Init(effects: seq<Effect>): State {
    State(seq(|effects|, _ => Waiting), 0, 0, false, [], false)
  }

  function Moved(s: State, i: nat, phase: Phase): State
    requires i < |s.phases|
  {
    s.(phases := s.phases[i := phase])
  }

  predicate At(s: State, i: nat, phase: Phase) {
    i < |s.phases| && s.phases[i] == phase
  }

  /** A row is sent while somebody takes it; on cancellation the callback may
      end the walk instead. */
  function Next(effects: seq<Effect>, s: State, a: Action): Option<State>
    requires |effects| == |s.phases|
  {
    match a
    case Cancel => if s.cancelled then None else Some(s.(cancelled := true))
    case Start(i) => if At(s, i, Waiting) then Some(Moved(s, i, Walking)) else None
    case Drop(i) =>
      if At(s, i, Walking) && effects[i].Drops? then Some(Moved(s, i, Done)) else None
    case Load(i) =>
      if At(s, i, Walking) && effects[i].Errs? then Some(Moved(s, i, Appending(s.errs, s.stores))) else None
    case Store(i) =>
      if i < |s.phases| && s.phases[i].Appending? then
        var mine := s.phases[i];
        Some(Moved(s, i, Done).(errs := mine.seen + 1, stores := s.stores + 1,
                                overlapped := s.overlapped || mine.at != s.stores))
      else None
    case Send(i) =>
      if At(s, i, Walking) && effects[i].Sends? then
        Some(Moved(s, i, Done).(sent := s.sent + [effects[i].row]))
      else None
    case Stop(i) =>
      if At(s, i, Walking) && effects[i].Sends? && s.cancelled then Some(Moved(s, i, Stopped)) else None
  }

  ghost predicate Follows(effects: seq<Effect>, s: State, u: State) {
    |s.phases| == |effects| && exists a :: Next(effects, s, a) == Some(u)
  }

  ghost predicate Schedule(effects: seq<Effect>, trace: seq<State>) {
    && trace != [] && trace[0] == Init(effects)
    && forall i | 0 <= i < |trace| - 1 :: Follows(effects, trace[i], trace[i + 1])
  }

  /** All callbacks have returned, and none is left to start unless one of them
      ended the walk. */
  predicate Final(s: State) {
    forall i | 0 <= i < |s.phases| ::
      || s.phases[i].Done? || s.phases[i].Stopped?
      || (s.phases[i].Waiting? && exists j | 0 <= j < |s.phases| :: At(s, j, Stopped))
  }

  // ---- What has been done so far ----

  function Failed(effects: seq<Effect>, phases: seq<Phase>): nat
    requires |effects| == |phases|
  {
    if effects == [] then 0
    else
      var k := |effects| - 1;
      Failed(effects[..k], phases[..k]) + Bit(phases[k].Done? && effects[k].Errs?)
  }

  function RowOf(e: Effect): multiset<Row> {
    if e.Sends? then multiset{e.row} else multiset{}
  }

  function Rows(effects: seq<Effect>, phases: seq<Phase>): multiset<Row>
    requires |effects| == |phases|
  {
    if effects == [] then multiset{}
    else
      var k := |effects| - 1;
      Rows(effects[..k], phases[..k]) + if phases[k].Done? then RowOf(effects[k]) else multiset{}
  }

  lemma {:induction false} OneMoreDone(effects: seq<Effect>, phases: seq<Phase>, i: nat, phase: Phase)
    requires |effects| == |phases| && i < |phases| && !phases[i].Done?
    ensures Failed(effects, phases[i := phase]) == Failed(effects, phases) + Bit(phase.Done? && effects[i].Errs?)
    ensures Rows(effects, phases[i := phase]) ==
            Rows(effects, phases) + if phase.Done? then RowOf(effects[i]) else multiset{}
    decreases |effects|
  {
    var k := |effects| - 1;
    if i < k {
      assert phases[i := phase][..k] == phases[..k][i := phase];
      OneMoreDone(effects[..k], phases[..k], i, phase);
    } else {
      assert phases[i := phase][..k] == phases[..k];
    }
  }

  // ---- The invariant ----

  /** What a callback about to write the list knows of it. */
  predicate Reads(s: State, e: Effect, phase: Phase) {
    phase.Appending? ==>
      && e.Errs? && phase.seen <= phase.at <= s.stores
      && (if s.overlapped then phase.seen < s.stores else phase.seen == phase.at)
  }

  /** Sent rows and list writes are those of the visits that came to their end. */
  predicate Counted(effects: seq<Effect>, s: State) {
    |s.phases| == |effects| && s.stores == Failed(effects, s.phases) && multiset(s.sent) == Rows(effects, s.phases)
  }

  /** The list is short of a write exactly if two overlapped. */
  predicate Recorded(effects: seq<Effect>, s: State) {
    && |s.phases| == |effects|
    && s.errs <= s.stores && (s.stores > 0 ==> s.errs > 0) && (s.errs == s.stores <==> !s.overlapped)
    && (forall i | 0 <= i < |s.phases| :: Reads(s, effects[i], s.phases[i]))
    && (forall i | 0 <= i < |s.phases| && s.phases[i].Stopped? :: s.cancelled)
  }

  predicate Inv(effects: seq<Effect>, s: State) {
    Counted(effects, s) && Recorded(effects, s)
  }

  lemma {:induction false} NothingDone(effects: seq<Effect>, phases: seq<Phase>)
    requires |effects| == |phases| && forall i | 0 <= i < |phases| :: phases[i].Waiting?
    ensures Failed(effects, phases) == 0 && Rows(effects, phases) == multiset{}
    decreases |effects|
  {
    if effects != [] {
      NothingDone(effects[..|effects| - 1], phases[..|effects| - 1]);
    }
  }

  lemma SentCounts(effects: seq<Effect>, s: State, i: nat)
    requires Counted(effects, s) && i < |effects| && effects[i].Sends? && !s.phases[i].Done?
    ensures Counted(effects, Moved(s, i, Done).(sent := s.sent + [effects[i].row]))
  {
    OneMoreDone(effects, s.phases, i, Done);
  }

  lemma StoredCounts(effects: seq<Effect>, s: State, i: nat)
    requires Counted(effects, s) && i < |effects| && effects[i].Errs? && !s.phases[i].Done?
    ensures Counted(effects, Moved(s, i, Done).(stores := s.stores + 1))
  {
    OneMoreDone(effects, s.phases, i, Done);
  }

  lemma MovedCounts(effects: seq<Effect>, s: State, i: nat, phase: Phase)
    requires Counted(effects, s) && i < |effects| && !s.phases[i].Done? && (phase.Done? ==> effects[i].Drops?)
    ensures Counted(effects, Moved(s, i, phase))
  {
    OneMoreDone(effects, s.phases, i, phase);
  }

  lemma StepCounts(effects: seq<Effect>, s: State, a: Action)
    requires Inv(effects, s) && Next(effects, s, a).Some?
    ensures Counted(effects, Next(effects, s, a).value)
  {
    match a
    case Cancel =>
    case Send(i) => SentCounts(effects, s, i);
    case Store(i) =>
      assert Reads(s, effects[i], s.phases[i]);
      StoredCounts(effects, s, i);
    case _ => MovedCounts(effects, s, a.i, Next(effects, s, a).value.phases[a.i]);
  }

  lemma StepRecords(effects: seq<Effect>, s: State, a: Action)
    requires Recorded(effects, s) && Next(effects, s, a).Some?
    ensures Recorded(effects, Next(effects, s, a).value)
  {
    var u := Next(effects, s, a).value;
    if a.Store? { assert Reads(s, effects[a.i], s.phases[a.i]); }
    forall i | 0 <= i < |u.phases| ensures Reads(u, effects[i], u.phases[i]) {
      assert Reads(s, effects[i], s.phases[i]);
    }
  }

  /** Every step of every callback keeps the invariant. */
  lemma InvIsInductive(effects: seq<Effect>, s: State, a: Action)
    requires Inv(effects, s) && Next(effects, s, a).Some?
    ensures Inv(effects, Next(effects, s, a).value)
  {
    StepCounts(effects, s, a);
    StepRecords(effects, s, a);
  }

  lemma {:induction false} ScheduleKeepsInv(effects: seq<Effect>, trace: seq<State>, n: nat)
    requires Schedule(effects, trace) && n < |trace|
    ensures Inv(effects, trace[n])
  {
    if n == 0 {
      NothingDone(effects, trace[0].phases);
    } else {
      ScheduleKeepsInv(effects, trace, n - 1);
      assert Follows(effects, trace[n - 1], trace[n]);
      var a :| Next(effects, trace[n - 1], a) == Some(trace[n]);
      InvIsInductive(effects, trace[n - 1], a);
    }
  }

  // ---- What the scan reports ----

  lemma EffectIs(v: Visit)
    ensures EffectOf(v).Errs? <==> Fails(v)
    ensures RowOf(EffectOf(v)) == if Walked(v).Some? then multiset{Walked(v).value} else multiset{}
  {
  }

  lemma EffectsFront(visits: seq<Visit>, k: nat)
    requires |visits| == k + 1
    ensures Effects(visits)[..k] == Effects(visits[..k]) && Effects(visits)[k] == EffectOf(visits[k])
  {
  }

  lemma OneMoreFailure(visits: seq<Visit>, k: nat)
    requires |visits| == k + 1
    ensures Failures(visits) == Failures(visits[..k]) + Bit(EffectOf(visits[k]).Errs?)
  {
    EffectIs(visits[k]);
  }

  lemma OneMoreRow(visits: seq<Visit>, k: nat)
    requires |visits| == k + 1
    ensures multiset(WalkRows(visits)) == multiset(WalkRows(visits[..k])) + RowOf(EffectOf(visits[k]))
  {
    assert WalkedAll(visits)[..k] == WalkedAll(visits[..k]);
    EffectIs(visits[k]);
  }

  lemma {:induction false} AllDone(visits: seq<Visit>, phases: seq<Phase>)
    requires |visits| == |phases| && forall i | 0 <= i < |phases| :: phases[i].Done?
    ensures Failed(Effects(visits), phases) == Failures(visits)
    ensures Rows(Effects(visits), phases) == multiset(WalkRows(visits))
    decreases |visits|
  {
    if visits != [] {
      var k := |visits| - 1;
      AllDone(visits[..k], phases[..k]);
      EffectsFront(visits, k);
      OneMoreFailure(visits, k);
      OneMoreRow(visits, k);
    }
  }

  /** However the callbacks interleave: a walk that was not cancelled sends the
      row of each visit exactly once, in some order. It reports an error exactly
      when some visit failed, never more errors than failures, and as many if
      and only if no two appends overlapped. */
  lemma WalkReports(visits: seq<Visit>, trace: seq<State>, n: nat)
    requires Schedule(Effects(visits), trace) && n < |trace| && Final(trace[n]) && !trace[n].cancelled
    ensures var s := trace[n];
      && multiset(s.sent) == multiset(WalkRows(visits))
      && (s.errs > 0 <==> Failures(visits) > 0) && s.errs <= Failures(visits)
      && (s.errs == Failures(visits) <==> !s.overlapped)
  {
    ScheduleKeepsInv(Effects(visits), trace, n);
    AllDone(visits, trace[n].phases);
  }

  /** A visit that failed has come to its end. */
  ghost predicate SomeFailed(effects: seq<Effect>, phases: seq<Phase>)
    requires |effects| == |phases|
  {
    exists i :: 0 <= i < |effects| && phases[i].Done? && effects[i].Errs?
  }

  lemma {:induction false} FailedIff(effects: seq<Effect>, phases: seq<Phase>)
    requires |effects| == |phases|
    ensures Failed(effects, phases) > 0 <==> SomeFailed(effects, phases)
    decreases |effects|
  {
    if effects != [] {
      var k := |effects| - 1;
      FailedIff(effects[..k], phases[..k]);
      if i :| 0 <= i < |effects| && phases[i].Done? && effects[i].Errs? && i != k {
        assert phases[..k][i].Done? && effects[..k][i].Errs?;
      }
      if SomeFailed(effects[..k], phases[..k]) {
        var i :| 0 <= i < k && phases[..k][i].Done? && effects[..k][i].Errs?;
        assert phases[i].Done? && effects[i].Errs?;
      }
    }
  }

  lemma {:induction false} SomeDone(visits: seq<Visit>, phases: seq<Phase>)
    requires |visits| == |phases|
    ensures Failed(Effects(visits), phases) <= Failures(visits)
    ensures Rows(Effects(visits), phases) <= multiset(WalkRows(visits))
    decreases |visits|
  {
    if visits != [] {
      var k := |visits| - 1;
      SomeDone(visits[..k], phases[..k]);
      EffectsFront(visits, k);
      OneMoreFailure(visits, k);
      OneMoreRow(visits, k);
    }
  }

  lemma Within(effects: seq<Effect>, s: State, rows: multiset<Row>, failures: nat)
    requires Inv(effects, s) && Rows(effects, s.phases) <= rows && Failed(effects, s.phases) <= failures
    ensures multiset(s.sent) <= rows && s.errs <= failures
  {
  }

  /** At any moment, cancelled or not, nothing has been sent twice or made up,
      and no error is recorded that was not met. */
  lemma NothingIsMadeUp(visits: seq<Visit>, trace: seq<State>, n: nat)
    requires Schedule(Effects(visits), trace) && n < |trace|
    ensures multiset(trace[n].sent) <= multiset(WalkRows(visits)) && trace[n].errs <= Failures(visits)
  {
    ScheduleKeepsInv(Effects(visits), trace, n);
    SomeDone(visits, trace[n].phases);
    Within(Effects(visits), trace[n], multiset(WalkRows(visits)), Failures(visits));
  }

  /** Nor is any failure met without the list showing that there was one. */
  lemma FailuresShow(effects: seq<Effect>, trace: seq<State>, n: nat)
    requires Schedule(effects, trace) && n < |trace|
    ensures |trace[n].phases| == |effects|
    ensures trace[n].errs > 0 <==> SomeFailed(effects, trace[n].phases)
  {
    ScheduleKeepsInv(effects, trace, n);
    FailedIff(effects, trace[n].phases);
  }

  /** Errors do get lost: two failed visits, both of which read the empty list
      before either writes it. */
  lemma ErrorsGetLost(visits: seq<Visit>) returns (trace: seq<State>)
    requires visits == [Visit.Failed, Visit.Failed]
    ensures Schedule(Effects(visits), trace) && Final(trace[|trace| - 1]) && !trace[|trace| - 1].cancelled
    ensures Failures(visits) == 2 && trace[|trace| - 1].errs == 1
  {
    var effects := Effects(visits);
    var s0 := Init(effects);
    var s1 := Moved(s0, 0, Walking);
    var s2 := Moved(s1, 1, Walking);
    var s3 := Moved(s2, 0, Appending(0, 0));
    var s4 := Moved(s3, 1, Appending(0, 0));
    var s5 := Moved(s4, 0, Done).(errs := 1, stores := 1, overlapped := false);
    var s6 := Moved(s5, 1, Done).(errs := 1, stores := 2, overlapped := true);
    trace := [s0, s1, s2, s3, s4, s5, s6];
    assert Next(effects, s0, Start(0)) == Some(s1) && Next(effects, s1, Start(1)) == Some(s2);
    assert Next(effects, s2, Load(0)) == Some(s3) && Next(effects, s3, Load(1)) == Some(s4);
    assert Next(effects, s4, Store(0)) == Some(s5) && Next(effects, s5, Store(1)) == Some(s6);
    assert Failures(visits) == 2 by {
      assert visits[..1] == [Visit.Failed] && [Visit.Failed][..0] == [];
      assert Failures([Visit.Failed]) == 1;
    }
  }
}
