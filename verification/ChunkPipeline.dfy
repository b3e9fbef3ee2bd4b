/** The scanner, the chunk joiner with its workers, and the runner that drains
    their results, as one system of interleaved steps. */
module ChunkPipeline {
  import opened Tree
  import M = Mirror
  import opened Sequences

  type Item = M.Entry

  /** `input` is what the scanner finds; `taskSize` and `chunkSize` are at
      least one; the entry channel holds their product. */
  datatype Setup = Setup(input: seq<Item>, taskSize: nat, chunkSize: nat) {
    predicate Valid() {
      taskSize >= 1 && chunkSize >= 1
    }

    function Room(): nat {
      taskSize * chunkSize
    }
  }

  // ---- The state ----

  datatype ScanPhase = Scanning | Reporting | ClosingEntries | ClosingErrors | ScanDone

  /** The scanner with the two channels it sends on and closes. */
  datatype Scanner = Scanner(
    phase: ScanPhase, scanned: nat, failed: bool,
    entries: seq<Item>, entriesClosed: bool, errors: nat, errorsClosed: bool)

  /** A slice of a backing array, always starting at its first cell. */
  datatype Slice = Slice(buf: nat, len: nat)

  /** Why a chunk is submitted: it is full, a tick came, or the scan is over. */
  datatype Cause = Full | Ticked | AtClose

  datatype JoinPhase = Selecting | Acquiring(why: Cause) | Finishing | Drained | Closed

  /** The dispatcher; `received`, `submitted`, `causes` and `dropped` are
      histories, the causes those of the submitted chunks. */
  datatype Joiner = Joiner(
    phase: JoinPhase, ended: bool, chunk: Option<Slice>,
    received: nat, submitted: seq<seq<Item>>, causes: seq<Cause>, dropped: seq<Item>)

  datatype WorkPhase = Copying | Sending | Releasing | Recycling | Gone

  /** `read` is what the copy method had seen in its slice when it returned. */
  datatype Worker = Worker(slice: Slice, phase: WorkPhase, read: seq<Item>)

  /** What dispatcher and workers share; a result is named by its worker. */
  datatype Shop = Shop(
    memory: map<nat, seq<Item>>, pool: set<nat>, permits: nat, workers: seq<Worker>,
    results: seq<nat>, resultsClosed: bool)

  datatype RunPhase = Draining | AwaitingError | RunDone

  datatype Runner = Runner(phase: RunPhase, delivered: seq<nat>, reported: bool)

  datatype State = State(cancelled: bool, scan: Scanner, join: Joiner, shop: Shop, run: Runner)

  datatype ScanAction = Emit | Abort(failed: bool) | Finish(failed: bool) | Report | CloseEntries | CloseErrors

  datatype JoinAction =
    SeeDone | Receive(buf: nat) | SeeClosed | Tick | AcquireOne | AcquireFails | AcquireAll | CloseResults

  datatype WorkAction = CopyReturns(i: nat) | SendResult(i: nat) | Release(i: nat) | Recycle(i: nat) | Collect(buf: nat)

  datatype RunAction = Cancel | Drain | SeeResultsClosed | SeeScanError

  datatype Action = Scan(ScanAction) | Join(j: JoinAction) | Work(w: WorkAction) | Run(r: RunAction)

  function Init(k: Setup): State {
    State(false,
          Scanner(Scanning, 0, false, [], false, 0, false),
          Joiner(Selecting, false, None, 0, [], [], []),
          Shop(map[], {}, k.taskSize, [], [], false),
          Runner(Draining, [], false))
  }

  // ---- Steps ----

  function Blank(k: Setup): seq<Item> {
    seq(k.chunkSize, _ => M.Entry([], M.Other, 0, ""))
  }

  /** What a slice shows of its backing array. */
  function Items(memory: map<nat, seq<Item>>, slice: Slice): seq<Item> {
    if slice.buf in memory && slice.len <= |memory[slice.buf]| then memory[slice.buf][..slice.len] else []
  }

  /** The scanner goroutine. */
  function ScanStep(k: Setup, cancelled: bool, c: Scanner, a: ScanAction): Option<Scanner> {
    match a
    case Emit =>
      if c.phase.Scanning? && c.scanned < |k.input| && |c.entries| < k.Room() then
        Some(c.(entries := c.entries + [k.input[c.scanned]], scanned := c.scanned + 1))
      else None
    case Abort(failed) =>
      if c.phase.Scanning? && cancelled then
        Some(c.(phase := if failed then Reporting else ClosingEntries, failed := failed))
      else None
    case Finish(failed) =>
      if c.phase.Scanning? && c.scanned == |k.input| then
        Some(c.(phase := if failed then Reporting else ClosingEntries, failed := failed))
      else None
    case Report =>
      if c.phase.Reporting? && c.errors < 1 then Some(c.(phase := ClosingEntries, errors := c.errors + 1)) else None
    case CloseEntries =>
      if c.phase.ClosingEntries? then Some(c.(phase := ClosingErrors, entriesClosed := true)) else None
    case CloseErrors =>
      if c.phase.ClosingErrors? then Some(c.(phase := ScanDone, errorsClosed := true)) else None
  }

  /** Puts the current chunk back into the pool and forgets its items. */
  function Discard(s: State): State
    requires s.join.chunk.Some?
  {
    var slice := s.join.chunk.value;
    s.(join := s.join.(dropped := s.join.dropped + Items(s.shop.memory, slice), chunk := None),
       shop := s.shop.(pool := s.shop.pool + {slice.buf}))
  }

  /** Appends the first waiting entry to `slice`; a full slice is submitted. */
  function Append(s: State, slice: Slice, cells: seq<Item>): State
    requires s.scan.entries != [] && slice.len < |cells|
  {
    s.(scan := s.scan.(entries := s.scan.entries[1..]),
       join := s.join.(received := s.join.received + 1,
                       chunk := Some(Slice(slice.buf, slice.len + 1)),
                       phase := if slice.len + 1 < |cells| then Selecting else Acquiring(Full)),
       shop := s.shop.(pool := s.shop.pool - {slice.buf},
                       memory := s.shop.memory[slice.buf := cells[slice.len := s.scan.entries[0]]]))
  }

  /** Hands the chunk and one permit to a new worker. */
  function Submit(s: State): State
    requires s.join.chunk.Some? && s.shop.permits > 0 && s.join.phase.Acquiring?
  {
    var slice := s.join.chunk.value;
    s.(join := s.join.(chunk := None, submitted := s.join.submitted + [Items(s.shop.memory, slice)],
                       causes := s.join.causes + [s.join.phase.why],
                       phase := if s.join.ended then Finishing else Selecting),
       shop := s.shop.(permits := s.shop.permits - 1, workers := s.shop.workers + [Worker(slice, Copying, [])]))
  }

  /** The dispatcher goroutine. A chunk is taken from the pool, or made. */
  function JoinStep(k: Setup, s: State, a: JoinAction): Option<State> {
    var c := s.join;
    match a
    case SeeDone =>
      if c.phase.Selecting? && s.cancelled then
        var u := if c.chunk.Some? then Discard(s) else s;
        Some(u.(join := u.join.(phase := Finishing, ended := true)))
      else None
    case Receive(buf) =>
      if !c.phase.Selecting? || s.scan.entries == [] then None
      else if c.chunk.Some? then
        var slice := c.chunk.value;
        if slice.buf in s.shop.memory && slice.len < |s.shop.memory[slice.buf]|
        then Some(Append(s, slice, s.shop.memory[slice.buf])) else None
      else if buf in s.shop.memory then
        if buf in s.shop.pool && s.shop.memory[buf] != [] then
          Some(Append(s, Slice(buf, 0), s.shop.memory[buf]))
        else None
      else if k.chunkSize > 0 then Some(Append(s, Slice(buf, 0), Blank(k))) else None
    case SeeClosed =>
      if c.phase.Selecting? && s.scan.entries == [] && s.scan.entriesClosed then
        Some(s.(join := c.(ended := true, phase := if c.chunk.Some? then Acquiring(AtClose) else Finishing)))
      else None
    case Tick =>
      if !c.phase.Selecting? then None
      else Some(s.(join := c.(phase := if c.chunk.Some? then Acquiring(Ticked) else Selecting)))
    case AcquireOne =>
      if c.phase.Acquiring? && s.shop.permits > 0 && c.chunk.Some? then Some(Submit(s)) else None
    case AcquireFails =>
      if c.phase.Acquiring? && s.cancelled && c.chunk.Some? then
        var u := Discard(s);
        Some(u.(join := u.join.(phase := Finishing, ended := true)))
      else None
    case AcquireAll =>
      if c.phase.Finishing? && s.shop.permits == k.taskSize then
        Some(s.(join := c.(phase := Drained), shop := s.shop.(permits := 0)))
      else None
    case CloseResults =>
      if c.phase.Drained? then Some(s.(join := c.(phase := Closed), shop := s.shop.(resultsClosed := true))) else None
  }

  predicate InPhase(h: Shop, i: nat, phase: WorkPhase) {
    i < |h.workers| && h.workers[i].phase == phase
  }

  function Moved(h: Shop, i: nat, w: Worker): Shop
    requires i < |h.workers|
  {
    h.(workers := h.workers[i := w])
  }

  /** A worker goroutine, and the collector emptying the pool. */
  function WorkStep(k: Setup, h: Shop, a: WorkAction): Option<Shop> {
    match a
    case CopyReturns(i) =>
      if InPhase(h, i, Copying) then
        var w := h.workers[i];
        Some(Moved(h, i, w.(phase := Sending, read := Items(h.memory, w.slice))))
      else None
    case SendResult(i) =>
      if InPhase(h, i, Sending) && |h.results| < k.taskSize then
        Some(Moved(h, i, h.workers[i].(phase := Releasing)).(results := h.results + [i]))
      else None
    case Release(i) =>
      if InPhase(h, i, Releasing) then
        Some(Moved(h, i, h.workers[i].(phase := Recycling)).(permits := h.permits + 1))
      else None
    case Recycle(i) =>
      if InPhase(h, i, Recycling) then
        Some(Moved(h, i, h.workers[i].(phase := Gone)).(pool := h.pool + {h.workers[i].slice.buf}))
      else None
    case Collect(buf) =>
      if buf in h.pool then Some(h.(pool := h.pool - {buf}, memory := h.memory - {buf})) else None
  }

  /** Cancellation, and the runner draining results, then the error channel. */
  function RunStep(s: State, a: RunAction): Option<State> {
    var r := s.run;
    match a
    case Cancel => if s.cancelled then None else Some(s.(cancelled := true))
    case Drain =>
      if r.phase.Draining? && s.shop.results != [] then
        Some(s.(shop := s.shop.(results := s.shop.results[1..]),
                run := r.(delivered := r.delivered + [s.shop.results[0]])))
      else None
    case SeeResultsClosed =>
      if r.phase.Draining? && s.shop.results == [] && s.shop.resultsClosed
      then Some(s.(run := r.(phase := AwaitingError))) else None
    case SeeScanError =>
      if !r.phase.AwaitingError? then None
      else if s.scan.errors > 0 then
        Some(s.(run := r.(phase := RunDone, reported := true), scan := s.scan.(errors := s.scan.errors - 1)))
      else if s.scan.errorsClosed then Some(s.(run := r.(phase := RunDone)))
      else None
  }

  function Next(k: Setup, s: State, a: Action): Option<State> {
    match a
    case Scan(b) =>
      var c := ScanStep(k, s.cancelled, s.scan, b);
      if c.Some? then Some(s.(scan := c.value)) else None
    case Join(b) => JoinStep(k, s, b)
    case Work(b) =>
      var h := WorkStep(k, s.shop, b);
      if h.Some? then Some(s.(shop := h.value)) else None
    case Run(b) => RunStep(s, b)
  }

  /** The states along one interleaving. */
  ghost predicate Schedule(k: Setup, trace: seq<State>) {
    && trace != [] && trace[0] == Init(k)
    && forall i | 0 <= i < |trace| - 1 :: Follows(k, trace[i], trace[i + 1])
  }

  ghost predicate Follows(k: Setup, s: State, u: State) {
    exists a :: Next(k, s, a) == Some(u)
  }

  // ---- The invariant ----

  predicate Live(phase: WorkPhase) {
    phase.Copying? || phase.Sending? || phase.Releasing?
  }

  predicate HasSent(phase: WorkPhase) {
    phase.Releasing? || phase.Recycling? || phase.Gone?
  }

  function LiveCount(ws: seq<Worker>): nat {
    if ws == [] then 0
    else LiveCount(ws[..|ws| - 1]) + if Live(ws[|ws| - 1].phase) then 1 else 0
  }

  /** A worker's array is allocated, full size, and neither pooled nor the dispatcher's. */
  ghost predicate OwnsArray(k: Setup, c: Joiner, h: Shop, slice: Slice) {
    && slice.buf in h.memory && slice.buf !in h.pool && slice.len <= k.chunkSize
    && (c.chunk.Some? ==> slice.buf != c.chunk.value.buf)
  }

  /** Each backing array has its full capacity and exactly one owner. */
  ghost predicate Ownership(k: Setup, c: Joiner, h: Shop) {
    && (forall b | b in h.memory :: |h.memory[b]| == k.chunkSize)
    && h.pool <= h.memory.Keys
    && (c.chunk.Some? ==>
          && c.chunk.value.buf in h.memory && c.chunk.value.buf !in h.pool
          && 1 <= c.chunk.value.len <= k.chunkSize)
    && (forall i | 0 <= i < |h.workers| && !h.workers[i].phase.Gone? :: OwnsArray(k, c, h, h.workers[i].slice))
    && (forall i, j | 0 <= i < j < |h.workers| && !h.workers[i].phase.Gone? && !h.workers[j].phase.Gone? ::
          h.workers[i].slice.buf != h.workers[j].slice.buf)
  }

  /** A worker still has, or has read, exactly what was submitted to it. */
  ghost predicate Faithful(k: Setup, memory: map<nat, seq<Item>>, w: Worker, chunk: seq<Item>) {
    && 1 <= |chunk| <= k.chunkSize
    && (!w.phase.Gone? ==> Items(memory, w.slice) == chunk)
    && (!w.phase.Copying? ==> w.read == chunk)
  }

  ghost predicate Contents(k: Setup, c: Joiner, h: Shop) {
    && |c.submitted| == |h.workers|
    && forall i | 0 <= i < |h.workers| :: Faithful(k, h.memory, h.workers[i], c.submitted[i])
  }

  function Pending(c: Joiner, h: Shop): seq<Item> {
    if c.chunk.Some? then Items(h.memory, c.chunk.value) else []
  }

  /** Every received entry was submitted, dropped, or is in the current chunk, in order. */
  ghost predicate Conservation(k: Setup, c: Joiner, h: Shop) {
    && c.received <= |k.input|
    && Flat(c.submitted) + c.dropped + Pending(c, h) == k.input[..c.received]
    && |c.dropped| <= k.chunkSize
  }

  ghost predicate Channels(k: Setup, cancelled: bool, n: Scanner, c: Joiner) {
    && c.received <= n.scanned <= |k.input|
    && n.entries == k.input[c.received..n.scanned]
    && |n.entries| <= k.Room()
    && (n.entriesClosed <==> n.phase.ClosingErrors? || n.phase.ScanDone?)
    && (n.errorsClosed <==> n.phase.ScanDone?)
    && (!n.phase.Scanning? ==> cancelled || n.scanned == |k.input|)
    && (c.ended ==> cancelled || (n.entriesClosed && c.received == n.scanned))
    && (c.dropped != [] ==> cancelled && c.ended && c.chunk.None?)
  }

  ghost predicate Permits(k: Setup, c: Joiner, h: Shop) {
    && (h.resultsClosed <==> c.phase.Closed?)
    && if c.phase.Drained? || c.phase.Closed? then h.permits == 0 && LiveCount(h.workers) == 0
       else h.permits + LiveCount(h.workers) == k.taskSize
  }

  ghost predicate Phases(k: Setup, c: Joiner) {
    && (c.phase.Selecting? ==> !c.ended && (c.chunk.Some? ==> c.chunk.value.len < k.chunkSize))
    && (c.phase.Acquiring? ==> c.chunk.Some?)
    && (c.phase.Finishing? || c.phase.Drained? || c.phase.Closed? ==> c.chunk.None? && c.ended)
  }

  /** The runner waits for errors only after every result, and the scanner's
      one error is in the channel, reported, or still to be sent. */
  ghost predicate Reports(n: Scanner, h: Shop, r: Runner) {
    && (!r.phase.Draining? ==> h.resultsClosed && h.results == [])
    && (r.reported ==> r.phase.RunDone?) && (n.phase.Reporting? ==> n.failed)
    && n.errors + Bit(r.reported) == Bit(n.failed && !n.phase.Scanning? && !n.phase.Reporting?)
    && (r.phase.RunDone? && !r.reported ==> n.errorsClosed && n.errors == 0)
  }

  /** Exactly one result, sent or delivered, per worker that has sent. */
  ghost predicate Results(k: Setup, h: Shop, r: Runner) {
    && |h.results| <= k.taskSize
    && forall i :: multiset(r.delivered + h.results)[i] ==
                   Bit(0 <= i < |h.workers| && HasSent(h.workers[i].phase))
  }

  ghost predicate Inv(k: Setup, s: State) {
    && k.Valid() && Ownership(k, s.join, s.shop) && Contents(k, s.join, s.shop)
    && Conservation(k, s.join, s.shop) && Channels(k, s.cancelled, s.scan, s.join)
    && Permits(k, s.join, s.shop) && Phases(k, s.join)
    && Reports(s.scan, s.shop, s.run) && Results(k, s.shop, s.run)
  }

  // ---- The invariant holds in every state of every schedule ----

  lemma {:induction false} LiveUpdate(ws: seq<Worker>, i: nat, w: Worker)
    requires i < |ws|
    ensures LiveCount(ws[i := w]) + Bit(Live(ws[i].phase)) == LiveCount(ws) + Bit(Live(w.phase))
  {
    var k := |ws| - 1;
    if i < k {
      assert ws[i := w][..k] == ws[..k][i := w];
      LiveUpdate(ws[..k], i, w);
    } else {
      assert ws[i := w][..k] == ws[..k];
    }
  }

  lemma {:induction false} LiveIsCounted(ws: seq<Worker>, i: nat)
    requires i < |ws| && Live(ws[i].phase)
    ensures LiveCount(ws) > 0
  {
    if i < |ws| - 1 {
      LiveIsCounted(ws[..|ws| - 1], i);
    }
  }

  lemma EmitKeepsChannels(k: Setup, cancelled: bool, n: Scanner, c: Joiner)
    requires Channels(k, cancelled, n, c) && ScanStep(k, cancelled, n, Emit).Some?
    ensures Channels(k, cancelled, ScanStep(k, cancelled, n, Emit).value, c)
  {
  }

  lemma ScanKeepsChannels(k: Setup, cancelled: bool, n: Scanner, c: Joiner, a: ScanAction)
    requires Channels(k, cancelled, n, c) && ScanStep(k, cancelled, n, a).Some? && !a.Emit?
    ensures Channels(k, cancelled, ScanStep(k, cancelled, n, a).value, c)
  {
  }

  lemma ScanKeepsReports(k: Setup, cancelled: bool, n: Scanner, c: Joiner, h: Shop, r: Runner, a: ScanAction)
    requires Channels(k, cancelled, n, c) && Reports(n, h, r) && ScanStep(k, cancelled, n, a).Some?
    ensures Reports(ScanStep(k, cancelled, n, a).value, h, r)
  {
  }

  lemma ScanKeeps(k: Setup, s: State, a: ScanAction)
    requires Inv(k, s) && Next(k, s, Scan(a)).Some?
    ensures Inv(k, Next(k, s, Scan(a)).value)
  {
    if a.Emit? {
      EmitKeepsChannels(k, s.cancelled, s.scan, s.join);
    } else {
      ScanKeepsChannels(k, s.cancelled, s.scan, s.join, a);
    }
    ScanKeepsReports(k, s.cancelled, s.scan, s.join, s.shop, s.run, a);
  }

  lemma CancelKeeps(k: Setup, s: State)
    requires Inv(k, s) && Next(k, s, Run(Cancel)).Some?
    ensures Inv(k, Next(k, s, Run(Cancel)).value)
  {
  }

  lemma DrainKeepsResults(k: Setup, s: State)
    requires Results(k, s.shop, s.run) && Next(k, s, Run(Drain)).Some?
    ensures Results(k, Next(k, s, Run(Drain)).value.shop, Next(k, s, Run(Drain)).value.run)
  {
    var u := Next(k, s, Run(Drain)).value;
    assert s.run.delivered + s.shop.results == u.run.delivered + u.shop.results;
  }

  lemma DrainKeeps(k: Setup, s: State)
    requires Inv(k, s) && Next(k, s, Run(Drain)).Some?
    ensures Inv(k, Next(k, s, Run(Drain)).value)
  {
    DrainKeepsResults(k, s);
  }

  /** The runner's phase and the one error are no part of the rest. */
  lemma RunPhaseKeepsReports(k: Setup, s: State, a: RunAction)
    requires Reports(s.scan, s.shop, s.run) && Results(k, s.shop, s.run) && Permits(k, s.join, s.shop)
    requires RunStep(s, a).Some? && (a.SeeResultsClosed? || a.SeeScanError?)
    ensures var u := RunStep(s, a).value;
      Reports(u.scan, u.shop, u.run) && Results(k, u.shop, u.run) && u.join == s.join && u.shop == s.shop
  {
  }

  lemma RunPhaseKeepsChannels(k: Setup, s: State, a: RunAction)
    requires Channels(k, s.cancelled, s.scan, s.join) && RunStep(s, a).Some? && (a.SeeResultsClosed? || a.SeeScanError?)
    ensures var u := RunStep(s, a).value; Channels(k, u.cancelled, u.scan, u.join)
  {
  }

  lemma RunPhaseKeeps(k: Setup, s: State, a: RunAction)
    requires Inv(k, s) && Next(k, s, Run(a)).Some? && (a.SeeResultsClosed? || a.SeeScanError?)
    ensures Inv(k, Next(k, s, Run(a)).value)
  {
    RunPhaseKeepsReports(k, s, a);
    RunPhaseKeepsChannels(k, s, a);
  }

  lemma MoveKeepsContents(k: Setup, c: Joiner, h: Shop, i: nat, w: Worker)
    requires Ownership(k, c, h) && Contents(k, c, h)
    requires i < |h.workers| && !h.workers[i].phase.Gone? && !w.phase.Gone? && w.slice == h.workers[i].slice
    requires Faithful(k, h.memory, w, c.submitted[i])
    ensures Ownership(k, c, Moved(h, i, w)) && Contents(k, c, Moved(h, i, w))
  {
  }

  lemma CopyReturnsKeeps(k: Setup, s: State, i: nat)
    requires Inv(k, s) && Next(k, s, Work(CopyReturns(i))).Some?
    ensures Inv(k, Next(k, s, Work(CopyReturns(i))).value)
  {
    var w := Next(k, s, Work(CopyReturns(i))).value.shop.workers[i];
    LiveUpdate(s.shop.workers, i, w);
    assert Faithful(k, s.shop.memory, s.shop.workers[i], s.join.submitted[i]);
    MoveKeepsContents(k, s.join, s.shop, i, w);
  }

  lemma SendKeepsResults(k: Setup, h: Shop, r: Runner, i: nat)
    requires Results(k, h, r) && WorkStep(k, h, SendResult(i)).Some?
    ensures Results(k, WorkStep(k, h, SendResult(i)).value, r)
  {
    var u := WorkStep(k, h, SendResult(i)).value;
    assert r.delivered + u.results == r.delivered + h.results + [i];
    CountOneMore(r.delivered + h.results, i);
    forall j ensures multiset(r.delivered + u.results)[j] == Bit(0 <= j < |u.workers| && HasSent(u.workers[j].phase)) {
      assert multiset(r.delivered + h.results)[j] == Bit(0 <= j < |h.workers| && HasSent(h.workers[j].phase));
    }
  }

  lemma CountOneMore(s: seq<nat>, i: nat)
    ensures forall j :: multiset(s + [i])[j] == multiset(s)[j] + Bit(j == i)
  {
  }

  lemma SendKeepsControl(k: Setup, s: State, i: nat)
    requires Permits(k, s.join, s.shop) && Reports(s.scan, s.shop, s.run) && WorkStep(k, s.shop, SendResult(i)).Some?
    ensures var h := WorkStep(k, s.shop, SendResult(i)).value; Permits(k, s.join, h) && Reports(s.scan, h, s.run)
  {
    LiveUpdate(s.shop.workers, i, s.shop.workers[i].(phase := Releasing));
    LiveIsCounted(s.shop.workers, i);
  }

  lemma SendKeeps(k: Setup, s: State, i: nat)
    requires Inv(k, s) && Next(k, s, Work(SendResult(i))).Some?
    ensures Inv(k, Next(k, s, Work(SendResult(i))).value)
  {
    SendKeepsResults(k, s.shop, s.run, i);
    SendKeepsControl(k, s, i);
    MoveKeepsContents(k, s.join, s.shop, i, s.shop.workers[i].(phase := Releasing));
  }

  lemma ReleaseKeepsPermits(k: Setup, c: Joiner, h: Shop, i: nat)
    requires Permits(k, c, h) && WorkStep(k, h, Release(i)).Some?
    ensures Permits(k, c, WorkStep(k, h, Release(i)).value)
  {
    LiveUpdate(h.workers, i, h.workers[i].(phase := Recycling));
    LiveIsCounted(h.workers, i);
  }

  lemma ReleaseKeeps(k: Setup, s: State, i: nat)
    requires Inv(k, s) && Next(k, s, Work(Release(i))).Some?
    ensures Inv(k, Next(k, s, Work(Release(i))).value)
  {
    ReleaseKeepsPermits(k, s.join, s.shop, i);
    MoveKeepsContents(k, s.join, s.shop, i, s.shop.workers[i].(phase := Recycling));
  }

  lemma RecycleKeepsContents(k: Setup, c: Joiner, h: Shop, i: nat)
    requires Ownership(k, c, h) && Contents(k, c, h) && WorkStep(k, h, Recycle(i)).Some?
    ensures Ownership(k, c, WorkStep(k, h, Recycle(i)).value) && Contents(k, c, WorkStep(k, h, Recycle(i)).value)
  {
  }

  lemma RecycleKeeps(k: Setup, s: State, i: nat)
    requires Inv(k, s) && Next(k, s, Work(Recycle(i))).Some?
    ensures Inv(k, Next(k, s, Work(Recycle(i))).value)
  {
    LiveUpdate(s.shop.workers, i, Next(k, s, Work(Recycle(i))).value.shop.workers[i]);
    RecycleKeepsContents(k, s.join, s.shop, i);
  }

  lemma CollectKeepsArrays(k: Setup, c: Joiner, h: Shop, buf: nat)
    requires Ownership(k, c, h) && Contents(k, c, h) && WorkStep(k, h, Collect(buf)).Some?
    ensures var u := WorkStep(k, h, Collect(buf)).value;
      Ownership(k, c, u) && Contents(k, c, u) && Pending(c, u) == Pending(c, h)
  {
  }

  lemma CollectKeeps(k: Setup, s: State, buf: nat)
    requires Inv(k, s) && Next(k, s, Work(Collect(buf))).Some?
    ensures Inv(k, Next(k, s, Work(Collect(buf))).value)
  {
    CollectKeepsArrays(k, s.join, s.shop, buf);
  }

  lemma ReceiveKeepsOwnership(k: Setup, s: State, buf: nat)
    requires Inv(k, s) && Next(k, s, Join(Receive(buf))).Some?
    ensures var u := Next(k, s, Join(Receive(buf))).value; Ownership(k, u.join, u.shop)
  {
  }

  lemma ReceiveKeepsContents(k: Setup, s: State, buf: nat)
    requires Ownership(k, s.join, s.shop) && Contents(k, s.join, s.shop) && Next(k, s, Join(Receive(buf))).Some?
    ensures var u := Next(k, s, Join(Receive(buf))).value; Contents(k, u.join, u.shop)
  {
    var u := Next(k, s, Join(Receive(buf))).value;
    forall i | 0 <= i < |s.shop.workers|
      ensures Faithful(k, u.shop.memory, s.shop.workers[i], s.join.submitted[i])
    {
      assert Faithful(k, s.shop.memory, s.shop.workers[i], s.join.submitted[i]);
      assert !s.shop.workers[i].phase.Gone? ==> OwnsArray(k, s.join, s.shop, s.shop.workers[i].slice);
    }
  }

  /** The current chunk grows by the entry received. */
  lemma ReceiveGrowsPending(k: Setup, s: State, buf: nat)
    requires Ownership(k, s.join, s.shop) && Next(k, s, Join(Receive(buf))).Some?
    ensures var u := Next(k, s, Join(Receive(buf))).value;
      && Pending(u.join, u.shop) == Pending(s.join, s.shop) + [s.scan.entries[0]]
      && u.join.submitted == s.join.submitted && u.join.dropped == s.join.dropped
      && u.join.received == s.join.received + 1
  {
  }

  lemma OneMoreConserved(k: Setup, c: Joiner, h: Shop, d: Joiner, g: Shop, e: Item)
    requires Conservation(k, c, h) && c.received < |k.input| && e == k.input[c.received]
    requires Pending(d, g) == Pending(c, h) + [e] && d.submitted == c.submitted && d.dropped == c.dropped
    requires d.received == c.received + 1
    ensures Conservation(k, d, g)
  {
    assert Flat(d.submitted) + d.dropped + Pending(d, g) == (Flat(c.submitted) + c.dropped + Pending(c, h)) + [e];
    assert k.input[..d.received] == k.input[..c.received] + [e];
  }

  lemma ReceiveKeepsConservation(k: Setup, s: State, buf: nat)
    requires Ownership(k, s.join, s.shop) && Conservation(k, s.join, s.shop)
    requires Channels(k, s.cancelled, s.scan, s.join) && Next(k, s, Join(Receive(buf))).Some?
    ensures var u := Next(k, s, Join(Receive(buf))).value; Conservation(k, u.join, u.shop)
  {
    var u := Next(k, s, Join(Receive(buf))).value;
    assert s.scan.entries[0] == k.input[s.join.received];
    ReceiveGrowsPending(k, s, buf);
    OneMoreConserved(k, s.join, s.shop, u.join, u.shop, s.scan.entries[0]);
  }

  lemma ReceiveKeepsChannels(k: Setup, s: State, buf: nat)
    requires Channels(k, s.cancelled, s.scan, s.join) && Phases(k, s.join) && Next(k, s, Join(Receive(buf))).Some?
    ensures var u := Next(k, s, Join(Receive(buf))).value; Channels(k, u.cancelled, u.scan, u.join)
  {
  }

  lemma ReceiveKeepsPhases(k: Setup, s: State, buf: nat)
    requires Ownership(k, s.join, s.shop) && Phases(k, s.join) && Permits(k, s.join, s.shop)
    requires Next(k, s, Join(Receive(buf))).Some?
    ensures var u := Next(k, s, Join(Receive(buf))).value; Phases(k, u.join) && Permits(k, u.join, u.shop)
  {
  }

  /** What receiving leaves alone. */
  lemma ReceiveSpares(k: Setup, s: State, buf: nat)
    requires Next(k, s, Join(Receive(buf))).Some?
    ensures var u := Next(k, s, Join(Receive(buf))).value;
      && u.run == s.run && u.scan == s.scan.(entries := u.scan.entries)
      && u.shop == s.shop.(pool := u.shop.pool, memory := u.shop.memory)
  {
  }

  lemma SparedKeepsReports(k: Setup, s: State, u: State)
    requires Reports(s.scan, s.shop, s.run) && Results(k, s.shop, s.run)
    requires u.run == s.run && u.scan == s.scan.(entries := u.scan.entries)
    requires u.shop == s.shop.(pool := u.shop.pool, memory := u.shop.memory)
    ensures Reports(u.scan, u.shop, u.run) && Results(k, u.shop, u.run)
  {
  }

  lemma ReceiveKeeps(k: Setup, s: State, buf: nat)
    requires Inv(k, s) && Next(k, s, Join(Receive(buf))).Some?
    ensures Inv(k, Next(k, s, Join(Receive(buf))).value)
  {
    ReceiveKeepsOwnership(k, s, buf);
    ReceiveKeepsContents(k, s, buf);
    ReceiveKeepsConservation(k, s, buf);
    ReceiveKeepsChannels(k, s, buf);
    ReceiveKeepsPhases(k, s, buf);
    ReceiveSpares(k, s, buf);
    SparedKeepsReports(k, s, Next(k, s, Join(Receive(buf))).value);
  }

  lemma SubmitKeepsOwnership(k: Setup, s: State)
    requires Ownership(k, s.join, s.shop) && s.join.chunk.Some? && s.shop.permits > 0 && s.join.phase.Acquiring?
    ensures Ownership(k, Submit(s).join, Submit(s).shop)
  {
  }

  lemma SubmitKeepsContents(k: Setup, s: State)
    requires Ownership(k, s.join, s.shop) && Contents(k, s.join, s.shop)
    requires s.join.chunk.Some? && s.shop.permits > 0 && s.join.phase.Acquiring?
    ensures Contents(k, Submit(s).join, Submit(s).shop)
  {
  }

  lemma SubmitKeepsResults(k: Setup, s: State)
    requires Results(k, s.shop, s.run) && s.join.chunk.Some? && s.shop.permits > 0 && s.join.phase.Acquiring?
    ensures Results(k, Submit(s).shop, s.run)
  {
  }

  lemma SubmitConserves(k: Setup, s: State)
    requires Conservation(k, s.join, s.shop) && s.join.dropped == []
    requires s.join.chunk.Some? && s.shop.permits > 0 && s.join.phase.Acquiring?
    ensures Conservation(k, Submit(s).join, Submit(s).shop)
  {
    FlatAppend(s.join.submitted, Pending(s.join, s.shop));
    var flat := Flat(s.join.submitted);
    assert flat + [] + Pending(s.join, s.shop) == (flat + Pending(s.join, s.shop)) + [] + [];
  }

  lemma SubmitKeepsPermits(k: Setup, s: State)
    requires Permits(k, s.join, s.shop) && s.join.chunk.Some? && s.shop.permits > 0 && s.join.phase.Acquiring?
    ensures Permits(k, Submit(s).join, Submit(s).shop)
  {
    var u := Submit(s);
    assert u.shop.workers[..|s.shop.workers|] == s.shop.workers;
  }

  lemma SubmitKeeps(k: Setup, s: State)
    requires Inv(k, s) && Next(k, s, Join(AcquireOne)).Some?
    ensures Inv(k, Next(k, s, Join(AcquireOne)).value)
  {
    var u := Next(k, s, Join(AcquireOne)).value;
    SubmitKeepsOwnership(k, s);
    SubmitKeepsContents(k, s);
    SubmitKeepsResults(k, s);
    assert s.join.dropped == [] && u == Submit(s);
    SubmitConserves(k, s);
    SubmitKeepsPermits(k, s);
  }

  lemma DiscardKeepsArrays(k: Setup, s: State)
    requires Ownership(k, s.join, s.shop) && Contents(k, s.join, s.shop) && s.join.chunk.Some?
    ensures Ownership(k, Discard(s).join, Discard(s).shop) && Contents(k, Discard(s).join, Discard(s).shop)
  {
  }

  lemma DiscardConserves(k: Setup, s: State)
    requires Ownership(k, s.join, s.shop) && Conservation(k, s.join, s.shop)
    requires s.join.chunk.Some? && s.join.dropped == []
    ensures Conservation(k, Discard(s).join, Discard(s).shop)
  {
  }

  lemma GiveUpKeeps(k: Setup, s: State, a: JoinAction)
    requires Inv(k, s) && Next(k, s, Join(a)).Some? && (a.SeeDone? || a.AcquireFails?)
    ensures Inv(k, Next(k, s, Join(a)).value)
  {
    if s.join.chunk.Some? {
      assert s.join.dropped == [];
      DiscardKeepsArrays(k, s);
      DiscardConserves(k, s);
    }
  }

  lemma SeeClosedKeeps(k: Setup, s: State)
    requires Inv(k, s) && Next(k, s, Join(SeeClosed)).Some?
    ensures Inv(k, Next(k, s, Join(SeeClosed)).value)
  {
  }

  lemma TickKeeps(k: Setup, s: State)
    requires Inv(k, s) && Next(k, s, Join(Tick)).Some?
    ensures Inv(k, Next(k, s, Join(Tick)).value)
  {
  }

  lemma AcquireAllKeeps(k: Setup, s: State)
    requires Inv(k, s) && Next(k, s, Join(AcquireAll)).Some?
    ensures Inv(k, Next(k, s, Join(AcquireAll)).value)
  {
    var u := Next(k, s, Join(AcquireAll)).value;
    ClosingSpares(k, s, u);
    assert Permits(k, u.join, u.shop);
  }

  lemma CloseResultsKeeps(k: Setup, s: State)
    requires Inv(k, s) && Next(k, s, Join(CloseResults)).Some?
    ensures Inv(k, Next(k, s, Join(CloseResults)).value)
  {
    var u := Next(k, s, Join(CloseResults)).value;
    ClosingSpares(k, s, u);
    assert Permits(k, u.join, u.shop);
  }

  /** Neither chunks nor results are touched. */
  lemma ClosingSpares(k: Setup, s: State, u: State)
    requires Ownership(k, s.join, s.shop) && Contents(k, s.join, s.shop) && Conservation(k, s.join, s.shop)
    requires Results(k, s.shop, s.run)
    requires u.join == s.join.(phase := u.join.phase) && u.run == s.run
    requires u.shop == s.shop.(permits := u.shop.permits, resultsClosed := u.shop.resultsClosed)
    ensures Ownership(k, u.join, u.shop) && Contents(k, u.join, u.shop) && Conservation(k, u.join, u.shop)
    ensures Results(k, u.shop, u.run)
  {
  }

  lemma JoinKeeps(k: Setup, s: State, a: JoinAction)
    requires Inv(k, s) && Next(k, s, Join(a)).Some?
    ensures Inv(k, Next(k, s, Join(a)).value)
  {
    match a {
      case Receive(buf) => ReceiveKeeps(k, s, buf);
      case AcquireOne => SubmitKeeps(k, s);
      case SeeDone | AcquireFails => GiveUpKeeps(k, s, a);
      case SeeClosed => SeeClosedKeeps(k, s);
      case Tick => TickKeeps(k, s);
      case AcquireAll => AcquireAllKeeps(k, s);
      case CloseResults => CloseResultsKeeps(k, s);
    }
  }

  /** Every step of every goroutine keeps the invariant. */
  lemma InvIsInductive(k: Setup, s: State, a: Action)
    requires Inv(k, s) && Next(k, s, a).Some?
    ensures Inv(k, Next(k, s, a).value)
  {
    match a {
      case Scan(b) => ScanKeeps(k, s, b);
      case Join(b) => JoinKeeps(k, s, b);
      case Work(CopyReturns(i)) => CopyReturnsKeeps(k, s, i);
      case Work(SendResult(i)) => SendKeeps(k, s, i);
      case Work(Release(i)) => ReleaseKeeps(k, s, i);
      case Work(Recycle(i)) => RecycleKeeps(k, s, i);
      case Work(Collect(buf)) => CollectKeeps(k, s, buf);
      case Run(Cancel) => CancelKeeps(k, s);
      case Run(Drain) => DrainKeeps(k, s);
      case Run(_) => RunPhaseKeeps(k, s, a.r);
    }
  }

  lemma {:induction false} ScheduleKeepsInv(k: Setup, trace: seq<State>, n: nat)
    requires k.Valid() && Schedule(k, trace) && n < |trace|
    ensures Inv(k, trace[n])
  {
    if n > 0 {
      ScheduleKeepsInv(k, trace, n - 1);
      assert Follows(k, trace[n - 1], trace[n]);
      var a :| Next(k, trace[n - 1], a) == Some(trace[n]);
      InvIsInductive(k, trace[n - 1], a);
    }
  }

  // ---- What every run guarantees ----

  /** Everything has ended: scanner, dispatcher, workers and runner. */
  predicate Final(s: State) {
    && s.scan.phase.ScanDone? && s.join.phase.Closed? && s.run.phase.RunDone?
    && forall i | 0 <= i < |s.shop.workers| :: s.shop.workers[i].phase.Gone?
  }

  /** At any moment the submitted chunks, what cancellation dropped and the
      chunk being filled are exactly the entries received so far, in scan
      order; no more than one chunk is ever dropped, and only when cancelled. */
  lemma NothingIsLost(k: Setup, trace: seq<State>, n: nat)
    requires k.Valid() && Schedule(k, trace) && n < |trace|
    ensures var c := trace[n].join;
      && c.received <= |k.input|
      && Flat(c.submitted) + c.dropped + Pending(c, trace[n].shop) == k.input[..c.received]
      && (forall i | 0 <= i < |c.submitted| :: 1 <= |c.submitted[i]| <= k.chunkSize)
      && |c.dropped| <= k.chunkSize && (c.dropped != [] ==> trace[n].cancelled)
  {
    ScheduleKeepsInv(k, trace, n);
    var s := trace[n];
    forall i | 0 <= i < |s.join.submitted| ensures 1 <= |s.join.submitted[i]| <= k.chunkSize {
      assert Faithful(k, s.shop.memory, s.shop.workers[i], s.join.submitted[i]);
    }
  }

  /** A finished run that was not cancelled submitted the whole input, every
      worker's copy method read its own chunk and nothing else, the runner got
      each worker's result exactly once, and it saw the scanner's error if
      and only if there was one. */
  lemma CompletionIsExact(k: Setup, trace: seq<State>, n: nat)
    requires k.Valid() && Schedule(k, trace) && n < |trace| && Final(trace[n])
    ensures var s := trace[n];
      && (!s.cancelled ==> Flat(s.join.submitted) == k.input)
      && |s.shop.workers| == |s.join.submitted|
      && (forall i | 0 <= i < |s.shop.workers| :: s.shop.workers[i].read == s.join.submitted[i])
      && (forall i :: multiset(s.run.delivered)[i] == Bit(0 <= i < |s.join.submitted|))
      && (s.run.reported <==> s.scan.failed)
  {
    ScheduleKeepsInv(k, trace, n);
    var s := trace[n];
    forall i | 0 <= i < |s.shop.workers| ensures s.shop.workers[i].read == s.join.submitted[i] {
      assert Faithful(k, s.shop.memory, s.shop.workers[i], s.join.submitted[i]);
    }
    assert s.run.delivered + s.shop.results == s.run.delivered;
    if !s.cancelled {
      assert k.input[..s.join.received] == k.input;
      assert Flat(s.join.submitted) + [] + [] == Flat(s.join.submitted);
    }
  }

  /** The scan has ended, with an error or without. */
  predicate Scanned(n: Scanner, failed: bool) {
    !n.phase.Scanning? && n.failed == failed
  }

  lemma StepKeepsScanned(k: Setup, s: State, a: Action, failed: bool)
    requires Scanned(s.scan, failed) && Next(k, s, a).Some?
    ensures Scanned(Next(k, s, a).value.scan, failed)
  {
  }

  lemma FollowsKeepsScanned(k: Setup, s: State, u: State, failed: bool)
    requires Scanned(s.scan, failed) && Follows(k, s, u)
    ensures Scanned(u.scan, failed)
  {
    var a :| Next(k, s, a) == Some(u);
    StepKeepsScanned(k, s, a, failed);
  }

  predicate KeepsScanned(trace: seq<State>, n: nat, failed: bool) {
    n + 1 < |trace| && (Scanned(trace[n].scan, failed) ==> Scanned(trace[n + 1].scan, failed))
  }

  lemma StepStaysScanned(k: Setup, trace: seq<State>, n: nat, failed: bool)
    requires Schedule(k, trace) && n + 1 < |trace|
    ensures KeepsScanned(trace, n, failed)
  {
    assert Follows(k, trace[n], trace[n + 1]);
    if Scanned(trace[n].scan, failed) { FollowsKeepsScanned(k, trace[n], trace[n + 1], failed); }
  }

  lemma {:induction false} StaysScanned(trace: seq<State>, m: nat, n: nat, failed: bool)
    requires m <= n < |trace| && Scanned(trace[m].scan, failed)
    requires forall l: nat | m <= l < n :: KeepsScanned(trace, l, failed)
    ensures Scanned(trace[n].scan, failed)
  {
    if m < n {
      StaysScanned(trace, m, n - 1, failed);
      assert KeepsScanned(trace, n - 1, failed);
    }
  }

  /** However the scan ended, a finished run has reported its error, or none if it
      had none. */
  lemma ScanErrorsAreReported(k: Setup, trace: seq<State>, m: nat, n: nat, a: ScanAction)
    requires k.Valid() && Schedule(k, trace) && m < n < |trace| && Final(trace[n]) && (a.Finish? || a.Abort?)
    requires Next(k, trace[m], Scan(a)) == Some(trace[m + 1])
    ensures trace[n].run.reported <==> a.failed
  {
    forall l: nat | m + 1 <= l < n ensures KeepsScanned(trace, l, a.failed) {
      StepStaysScanned(k, trace, l, a.failed);
    }
    StaysScanned(trace, m + 1, n, a.failed);
    CompletionIsExact(k, trace, n);
  }

  // ---- Entries are batched ----

  /** A chunk is submitted because it is full exactly if it is, and because the
      scan is over only as the last one. */
  ghost predicate Batched(k: Setup, c: Joiner) {
    && |c.causes| == |c.submitted|
    && (c.phase.Acquiring? && c.chunk.Some? ==>
          (c.phase.why.Full? <==> c.chunk.value.len == k.chunkSize) && (c.phase.why.AtClose? <==> c.ended))
    && (forall i | 0 <= i < |c.submitted| :: c.causes[i].Full? <==> |c.submitted[i]| == k.chunkSize)
    && (forall i | 0 <= i < |c.causes| && c.causes[i].AtClose? ::
          i == |c.causes| - 1 && c.ended && !c.phase.Selecting? && !c.phase.Acquiring?)
  }

  lemma ReceiveBatches(k: Setup, s: State, buf: nat)
    requires Ownership(k, s.join, s.shop) && Phases(k, s.join) && Batched(k, s.join)
    requires JoinStep(k, s, Receive(buf)).Some?
    ensures Batched(k, JoinStep(k, s, Receive(buf)).value.join)
  {
  }

  lemma SubmitBatches(k: Setup, s: State)
    requires Ownership(k, s.join, s.shop) && Batched(k, s.join)
    requires s.join.chunk.Some? && s.shop.permits > 0 && s.join.phase.Acquiring?
    ensures Batched(k, Submit(s).join)
  {
    assert |Items(s.shop.memory, s.join.chunk.value)| == s.join.chunk.value.len;
  }

  lemma JoinBatches(k: Setup, s: State, a: JoinAction)
    requires Ownership(k, s.join, s.shop) && Phases(k, s.join) && Batched(k, s.join) && JoinStep(k, s, a).Some?
    ensures Batched(k, JoinStep(k, s, a).value.join)
  {
    match a {
      case Receive(buf) => ReceiveBatches(k, s, buf);
      case AcquireOne => SubmitBatches(k, s);
      case _ =>
    }
  }

  lemma StepBatches(k: Setup, s: State, a: Action)
    requires Ownership(k, s.join, s.shop) && Phases(k, s.join) && Batched(k, s.join) && Next(k, s, a).Some?
    ensures Batched(k, Next(k, s, a).value.join)
  {
    if a.Join? {
      JoinBatches(k, s, a.j);
    } else {
      assert Next(k, s, a).value.join == s.join;
    }
  }

  lemma FollowsBatches(k: Setup, s: State, u: State)
    requires Ownership(k, s.join, s.shop) && Phases(k, s.join) && Batched(k, s.join) && Follows(k, s, u)
    ensures Batched(k, u.join)
  {
    var a :| Next(k, s, a) == Some(u);
    StepBatches(k, s, a);
  }

  lemma {:induction false} ScheduleBatches(k: Setup, trace: seq<State>, n: nat)
    requires k.Valid() && Schedule(k, trace) && n < |trace|
    ensures Batched(k, trace[n].join)
  {
    if n > 0 {
      var m := n - 1;
      ScheduleBatches(k, trace, m);
      ScheduleKeepsInv(k, trace, m);
      FollowsBatches(k, trace[m], trace[m + 1]);
    }
  }

  /** In every reachable state a submitted chunk is shorter than `chunkSize`
      exactly if it was submitted at a tick, or at the end of the scan, which
      happens to the last one only. */
  lemma ShortChunksHaveCause(k: Setup, trace: seq<State>, n: nat, i: nat)
    requires k.Valid() && Schedule(k, trace) && n < |trace| && i < |trace[n].join.submitted|
    ensures var c := trace[n].join;
      && |c.causes| == |c.submitted|
      && (|c.submitted[i]| < k.chunkSize <==> c.causes[i] in {Ticked, AtClose})
      && (c.causes[i].AtClose? ==> i == |c.submitted| - 1)
  {
    ScheduleBatches(k, trace, n);
    NothingIsLost(k, trace, n);
  }

  /** A tick that finds a chunk to flush. */
  predicate Flushes(k: Setup, s: State, u: State) {
    Next(k, s, Join(Tick)) == Some(u) && u != s
  }

  /** No chunk is due to a tick. */
  predicate Unticked(c: Joiner) {
    Ticked !in c.causes && c.phase != Acquiring(Ticked)
  }

  lemma StaysUnticked(k: Setup, s: State, a: Action)
    requires Next(k, s, a).Some? && Unticked(s.join) && !Flushes(k, s, Next(k, s, a).value)
    ensures Unticked(Next(k, s, a).value.join)
  {
  }

  lemma {:induction false} ScheduleIsUnticked(k: Setup, trace: seq<State>, n: nat)
    requires Schedule(k, trace) && n < |trace| && forall m: nat | m < n :: !Flushes(k, trace[m], trace[m + 1])
    ensures Unticked(trace[n].join)
  {
    if n > 0 {
      ScheduleIsUnticked(k, trace, n - 1);
      var m := n - 1;
      assert Follows(k, trace[m], trace[m + 1]) && !Flushes(k, trace[m], trace[m + 1]);
      var a :| Next(k, trace[m], a) == Some(trace[m + 1]);
      StaysUnticked(k, trace[m], a);
    }
  }

  lemma {:induction false} EqualPieces<T>(pieces: seq<seq<T>>, size: nat, i: nat)
    requires i <= |pieces| && forall j | 0 <= j < i :: |pieces[j]| == size
    ensures |Flat(pieces[..i])| == i * size && Flat(pieces[..i]) <= Flat(pieces)
    decreases |pieces|
  {
    if i == |pieces| {
      assert pieces[..i] == pieces;
      if i > 0 {
        EqualPieces(pieces[..i - 1], size, i - 1);
        assert pieces[..i - 1][..i - 1] == pieces[..i - 1];
        assert (i - 1) * size + size == i * size;
      }
    } else {
      var front := pieces[..|pieces| - 1];
      EqualPieces(front, size, i);
      assert front[..i] == pieces[..i];
    }
  }

  /** Where each piece but the last has full size, it is a slice of the whole. */
  lemma PieceIsSlice<T>(pieces: seq<seq<T>>, size: nat, i: nat)
    requires i < |pieces| && (forall j | 0 <= j < |pieces| - 1 :: |pieces[j]| == size) && |pieces[i]| <= size
    ensures i * size + |pieces[i]| <= |Flat(pieces)|
    ensures pieces[i] == Flat(pieces)[i * size..i * size + |pieces[i]|]
    ensures i == |pieces| - 1 ==> |Flat(pieces)| == i * size + |pieces[i]|
  {
    EqualPieces(pieces, size, i);
    assert pieces[..i + 1][..i] == pieces[..i];
    assert Flat(pieces[..i + 1]) == Flat(pieces[..i]) + pieces[i];
    if i < |pieces| - 1 {
      EqualPieces(pieces, size, i + 1);
    } else {
      assert pieces[..i + 1] == pieces;
    }
  }

  /** A finished run that was not cancelled and in which no tick found a chunk to
      flush cut the scan into consecutive pieces of `chunkSize` entries, only the
      last one being shorter. */
  lemma UntickedRunsBatch(k: Setup, trace: seq<State>, n: nat, i: nat)
    requires k.Valid() && Schedule(k, trace) && n < |trace| && Final(trace[n]) && !trace[n].cancelled
    requires forall m: nat | m < n :: !Flushes(k, trace[m], trace[m + 1])
    requires i < |trace[n].join.submitted|
    ensures var chunk := trace[n].join.submitted[i];
      && i * k.chunkSize + |chunk| <= |k.input| && chunk == k.input[i * k.chunkSize..i * k.chunkSize + |chunk|]
      && (if i == |trace[n].join.submitted| - 1 then i * k.chunkSize + |chunk| == |k.input|
          else |chunk| == k.chunkSize)
  {
    var pieces := trace[n].join.submitted;
    ScheduleBatches(k, trace, n);
    ScheduleIsUnticked(k, trace, n);
    CompletionIsExact(k, trace, n);
    NothingIsLost(k, trace, n);
    forall j | 0 <= j < |pieces| - 1 ensures |pieces[j]| == k.chunkSize {
      ShortChunksHaveCause(k, trace, n, j);
      assert trace[n].join.causes[j] in trace[n].join.causes;
    }
    PieceIsSlice(pieces, k.chunkSize, i);
  }

  /** The backing array of a running worker is full size and is neither in the
      pool, nor the dispatcher's, nor another worker's, and still holds what
      was submitted: no later append can change what a copy method reads. */
  lemma BuffersAreExclusive(k: Setup, trace: seq<State>, n: nat, i: nat)
    requires k.Valid() && Schedule(k, trace) && n < |trace|
    requires i < |trace[n].shop.workers| && !trace[n].shop.workers[i].phase.Gone?
    ensures var s := trace[n]; var slice := s.shop.workers[i].slice;
      && slice.buf in s.shop.memory && |s.shop.memory[slice.buf]| == k.chunkSize
      && slice.buf !in s.shop.pool
      && (s.join.chunk.Some? ==> s.join.chunk.value.buf != slice.buf)
      && (forall j | 0 <= j < |s.shop.workers| && j != i && !s.shop.workers[j].phase.Gone? ::
            s.shop.workers[j].slice.buf != slice.buf)
      && i < |s.join.submitted| && Items(s.shop.memory, slice) == s.join.submitted[i]
  {
    ScheduleKeepsInv(k, trace, n);
    var s := trace[n];
    assert OwnsArray(k, s.join, s.shop, s.shop.workers[i].slice);
    assert Faithful(k, s.shop.memory, s.shop.workers[i], s.join.submitted[i]);
  }

  ghost predicate HeldBy(h: Shop, b: nat, i: nat) {
    i < |h.workers| && !h.workers[i].phase.Gone? && h.workers[i].slice.buf == b
  }

  /** The array is in the pool, the dispatcher's, or a worker's. */
  ghost predicate HasPlace(c: Joiner, h: Shop, b: nat) {
    || b in h.pool || (c.chunk.Some? && c.chunk.value.buf == b)
    || exists i: nat :: HeldBy(h, b, i)
  }

  ghost predicate AllPlaced(c: Joiner, h: Shop) {
    forall b | b in h.memory :: HasPlace(c, h, b)
  }

  lemma JoinPlaces(k: Setup, s: State, a: JoinAction)
    requires AllPlaced(s.join, s.shop) && Phases(k, s.join) && JoinStep(k, s, a).Some?
    ensures var u := JoinStep(k, s, a).value; AllPlaced(u.join, u.shop)
  {
    var u := JoinStep(k, s, a).value;
    forall b | b in u.shop.memory ensures HasPlace(u.join, u.shop, b) {
      if b in s.shop.memory {
        assert HasPlace(s.join, s.shop, b);
        if i: nat :| HeldBy(s.shop, b, i) { assert HeldBy(u.shop, b, i); }
      }
      if a.AcquireOne? && s.join.chunk.value.buf == b { assert HeldBy(u.shop, b, |s.shop.workers|); }
    }
  }

  lemma WorkPlaces(k: Setup, c: Joiner, h: Shop, a: WorkAction)
    requires AllPlaced(c, h) && WorkStep(k, h, a).Some?
    ensures AllPlaced(c, WorkStep(k, h, a).value)
  {
    var u := WorkStep(k, h, a).value;
    forall b | b in u.memory ensures HasPlace(c, u, b) {
      assert HasPlace(c, h, b);
      if i: nat :| HeldBy(h, b, i) {
        assert HeldBy(u, b, i) || b in u.pool;
      }
    }
  }

  lemma FollowsPlaces(k: Setup, s: State, u: State)
    requires AllPlaced(s.join, s.shop) && Phases(k, s.join) && Follows(k, s, u)
    ensures AllPlaced(u.join, u.shop)
  {
    var a :| Next(k, s, a) == Some(u);
    match a {
      case Join(b) => JoinPlaces(k, s, b);
      case Work(b) => WorkPlaces(k, s.join, s.shop, b);
      case _ => assert u.join == s.join && u.shop.memory == s.shop.memory && u.shop.pool == s.shop.pool
                       && u.shop.workers == s.shop.workers;
        forall b | b in u.shop.memory ensures HasPlace(u.join, u.shop, b) {
          assert HasPlace(s.join, s.shop, b);
          if i: nat :| HeldBy(s.shop, b, i) { assert HeldBy(u.shop, b, i); }
        }
    }
  }

  /** No backing array gets lost: each is in the pool, the dispatcher's, or held
      by a worker that has not returned it, so that in the end all are in the pool. */
  lemma {:induction false} NoArrayIsLost(k: Setup, trace: seq<State>, n: nat)
    requires k.Valid() && Schedule(k, trace) && n < |trace|
    ensures AllPlaced(trace[n].join, trace[n].shop)
    ensures Final(trace[n]) ==> trace[n].shop.memory.Keys == trace[n].shop.pool
  {
    if n > 0 {
      var m := n - 1;
      NoArrayIsLost(k, trace, m);
      ScheduleKeepsInv(k, trace, m);
      FollowsPlaces(k, trace[m], trace[m + 1]);
    }
    ScheduleKeepsInv(k, trace, n);
    if Final(trace[n]) {
      var c, h := trace[n].join, trace[n].shop;
      forall b | b in h.memory ensures b in h.pool {
        assert HasPlace(c, h, b);
      }
    }
  }

  /** A tick flushes the chunk that is being filled: what is in it is submitted as
      soon as a permit is free. Without a chunk it does nothing. */
  lemma TickFlushes(k: Setup, trace: seq<State>, n: nat)
    requires k.Valid() && Schedule(k, trace) && n < |trace| && trace[n].join.phase.Selecting?
    ensures var s := trace[n]; var u := Next(k, s, Join(Tick));
      && u.Some? && Pending(u.value.join, u.value.shop) == Pending(s.join, s.shop)
      && if s.join.chunk.None? then u.value == s
         else var v := Next(k, u.value, Join(AcquireOne));
           && (v.Some? <==> LiveCount(s.shop.workers) < k.taskSize)
           && (v.Some? ==> v.value.join.submitted == s.join.submitted + [Pending(s.join, s.shop)])
  {
    ScheduleKeepsInv(k, trace, n);
  }

  /** Once cancelled, the dispatcher can give up wherever it waits, and then
      submits nothing more. */
  lemma CancelEndsDispatch(k: Setup, trace: seq<State>, n: nat, a: JoinAction)
    requires k.Valid() && Schedule(k, trace) && n < |trace| && (a.SeeDone? || a.AcquireFails?)
    ensures var s := trace[n]; var u := Next(k, s, Join(a));
      && (u.Some? <==> s.cancelled && if a.SeeDone? then s.join.phase.Selecting? else s.join.phase.Acquiring?)
      && (u.Some? ==>
            && u.value.join.phase.Finishing? && u.value.join.ended && u.value.join.chunk.None?
            && u.value.join.submitted == s.join.submitted && u.value.shop.workers == s.shop.workers
            && u.value.join.dropped == s.join.dropped + Pending(s.join, s.shop))
  {
    ScheduleKeepsInv(k, trace, n);
  }

  /** Permits and live workers always add up to `taskSize`, until the
      dispatcher has taken all permits; then no worker can send any more, so
      the result channel is closed after the last send. */
  lemma PermitsAddUp(k: Setup, trace: seq<State>, n: nat)
    requires k.Valid() && Schedule(k, trace) && n < |trace|
    ensures var s := trace[n];
      && LiveCount(s.shop.workers) <= k.taskSize && s.shop.permits <= k.taskSize
      && (!s.join.phase.Drained? && !s.join.phase.Closed? ==>
            s.shop.permits + LiveCount(s.shop.workers) == k.taskSize)
      && (s.shop.resultsClosed ==> forall i | 0 <= i < |s.shop.workers| :: HasSent(s.shop.workers[i].phase))
  {
    ScheduleKeepsInv(k, trace, n);
    var s := trace[n];
    forall i | 0 <= i < |s.shop.workers| && s.shop.resultsClosed ensures HasSent(s.shop.workers[i].phase) {
      if Live(s.shop.workers[i].phase) {
        LiveIsCounted(s.shop.workers, i);
      }
    }
  }

  // ---- No deadlock ----

  /** Nobody waits without need: the scanner for room in a channel of
      `taskSize * chunkSize` entries, the dispatcher for one of `taskSize` running
      workers to end, and a worker for room for its result. */
  lemma WaitsOnlyWhenFull(k: Setup, trace: seq<State>, n: nat)
    requires k.Valid() && Schedule(k, trace) && n < |trace|
    ensures var s := trace[n];
      && (s.scan.phase.Scanning? && s.scan.scanned < |k.input| ==>
            (Next(k, s, Scan(Emit)).None? <==> |s.scan.entries| == k.taskSize * k.chunkSize))
      && (s.join.phase.Acquiring? ==>
            (Next(k, s, Join(AcquireOne)).None? <==> LiveCount(s.shop.workers) == k.taskSize))
      && forall i | InPhase(s.shop, i, Sending) ::
           Next(k, s, Work(SendResult(i))).None? <==> |s.shop.results| == k.taskSize
  {
    ScheduleKeepsInv(k, trace, n);
  }

  /** An action that moves the program itself: not a cancellation, not the
      garbage collector, and not a tick. */
  predicate IsProgress(a: Action) {
    !(a.Run? && a.r.Cancel?) && !(a.Work? && a.w.Collect?) && !(a.Join? && a.j.Tick?)
  }

  ghost predicate CanMove(k: Setup, s: State) {
    exists a :: IsProgress(a) && Next(k, s, a).Some?
  }

  lemma WorkerCanMove(k: Setup, s: State, i: nat)
    requires Inv(k, s) && i < |s.shop.workers| && !s.shop.workers[i].phase.Gone?
    ensures CanMove(k, s)
  {
    var a := match s.shop.workers[i].phase {
      case Copying => Work(CopyReturns(i))
      case Sending => if |s.shop.results| < k.taskSize then Work(SendResult(i)) else Run(Drain)
      case Releasing => Work(Release(i))
      case _ => Work(Recycle(i))
    };
    assert IsProgress(a) && Next(k, s, a).Some?;
  }

  lemma ScannerCanMove(k: Setup, s: State)
    requires Inv(k, s) && !s.scan.phase.ScanDone? && !s.scan.phase.ClosingErrors?
    requires s.scan.entries == [] || s.cancelled
    ensures CanMove(k, s)
  {
    var n := s.scan;
    var a := if n.phase.Reporting? then Scan(Report)
             else if n.phase.ClosingEntries? then Scan(CloseEntries)
             else if s.cancelled then Scan(Abort(true))
             else if n.scanned < |k.input| then Scan(Emit) else Scan(Finish(true));
    assert k.Room() >= 1 by { RoomIsPositive(k); }
    assert IsProgress(a) && Next(k, s, a).Some?;
  }

  lemma RoomIsPositive(k: Setup)
    requires k.Valid()
    ensures k.Room() >= 1
  {
  }

  lemma JoinerCanMove(k: Setup, s: State)
    requires Inv(k, s) && !s.join.phase.Closed?
    requires forall i | 0 <= i < |s.shop.workers| :: s.shop.workers[i].phase.Gone?
    ensures CanMove(k, s)
  {
    NoneIsLive(s.shop.workers);
    var c := s.join;
    if c.phase.Selecting? && s.scan.entries == [] && !s.scan.entriesClosed {
      ScannerCanMove(k, s);
    } else {
      var buf := FreshNumber(s.shop.memory.Keys);
      var a := if c.phase.Acquiring? then Join(AcquireOne)
               else if c.phase.Finishing? then Join(AcquireAll)
               else if c.phase.Drained? then Join(CloseResults)
               else if s.scan.entries == [] then Join(SeeClosed) else Join(Receive(buf));
      assert IsProgress(a) && Next(k, s, a).Some?;
    }
  }

  lemma {:induction false} NoneIsLive(ws: seq<Worker>)
    requires forall i | 0 <= i < |ws| :: ws[i].phase.Gone?
    ensures LiveCount(ws) == 0
  {
    if ws != [] {
      NoneIsLive(ws[..|ws| - 1]);
    }
  }

  /** Whatever the schedule and whenever it was cancelled, a run that has not
      ended has a step of its own to take. */
  lemma NeverStuck(k: Setup, trace: seq<State>, n: nat)
    requires k.Valid() && Schedule(k, trace) && n < |trace| && !Final(trace[n])
    ensures CanMove(k, trace[n])
  {
    ScheduleKeepsInv(k, trace, n);
    var s := trace[n];
    if i: nat :| i < |s.shop.workers| && !s.shop.workers[i].phase.Gone? {
      WorkerCanMove(k, s, i);
    } else if !s.join.phase.Closed? {
      JoinerCanMove(k, s);
    } else if s.scan.phase.ClosingErrors? {
      assert IsProgress(Scan(CloseErrors)) && Next(k, s, Scan(CloseErrors)).Some?;
    } else if !s.scan.phase.ScanDone? {
      ScannerCanMove(k, s);
    } else {
      var a := if s.run.phase.AwaitingError? then Run(SeeScanError)
               else if s.shop.results != [] then Run(Drain) else Run(SeeResultsClosed);
      assert IsProgress(a) && Next(k, s, a).Some?;
    }
  }

  // ---- Every run ends ----

  function PhaseRank(phase: WorkPhase): nat {
    match phase
    case Copying => 6
    case Sending => 5
    case Releasing => 3
    case Recycling => 2
    case Gone => 0
  }

  function WorkRank(ws: seq<Worker>): nat {
    if ws == [] then 0 else WorkRank(ws[..|ws| - 1]) + PhaseRank(ws[|ws| - 1].phase)
  }

  function ScanRank(k: Setup, n: Scanner): int {
    9 * |n.entries| + match n.phase
                      case Scanning => 4 + 10 * (|k.input| - n.scanned)
                      case Reporting => 3
                      case ClosingEntries => 2
                      case ClosingErrors => 1
                      case ScanDone => 0
  }

  function JoinRank(c: Joiner): nat {
    (if c.chunk.Some? then 8 * c.chunk.value.len else 0) + match c.phase
                                                           case Selecting => 4
                                                           case Acquiring(_) => 3
                                                           case Finishing => 2
                                                           case Drained => 1
                                                           case Closed => 0
  }

  function RunRank(r: Runner): nat {
    match r.phase
    case Draining => 2
    case AwaitingError => 1
    case RunDone => 0
  }

  /** How many steps are left at most. */
  function Rank(k: Setup, s: State): int {
    Bit(!s.cancelled) + ScanRank(k, s.scan) + JoinRank(s.join)
    + WorkRank(s.shop.workers) + |s.shop.results| + |s.shop.pool| + RunRank(s.run)
  }

  lemma {:induction false} WorkRankUpdate(ws: seq<Worker>, i: nat, w: Worker)
    requires i < |ws|
    ensures WorkRank(ws[i := w]) + PhaseRank(ws[i].phase) == WorkRank(ws) + PhaseRank(w.phase)
  {
    var k := |ws| - 1;
    if i < k {
      assert ws[i := w][..k] == ws[..k][i := w];
      WorkRankUpdate(ws[..k], i, w);
    } else {
      assert ws[i := w][..k] == ws[..k];
    }
  }

  lemma WorkDescends(k: Setup, h: Shop, a: WorkAction)
    requires WorkStep(k, h, a).Some?
    ensures var u := WorkStep(k, h, a).value;
      WorkRank(u.workers) + |u.results| + |u.pool| < WorkRank(h.workers) + |h.results| + |h.pool|
  {
    var u := WorkStep(k, h, a).value;
    if a.Collect? {
      assert h.pool == u.pool + {a.buf};
    } else {
      WorkRankUpdate(h.workers, a.i, u.workers[a.i]);
    }
  }

  lemma AppendDescends(k: Setup, s: State, slice: Slice, cells: seq<Item>)
    requires s.scan.entries != [] && slice.len < |cells| && s.join.phase.Selecting?
    requires slice.len > 0 ==> s.join.chunk == Some(slice)
    ensures Rank(k, Append(s, slice, cells)) < Rank(k, s)
  {
  }

  lemma ReceiveDescends(k: Setup, s: State, buf: nat)
    requires Phases(k, s.join) && JoinStep(k, s, Receive(buf)).Some?
    ensures Rank(k, JoinStep(k, s, Receive(buf)).value) < Rank(k, s)
  {
    if s.join.chunk.Some? {
      AppendDescends(k, s, s.join.chunk.value, s.shop.memory[s.join.chunk.value.buf]);
    } else if buf in s.shop.memory {
      AppendDescends(k, s, Slice(buf, 0), s.shop.memory[buf]);
    } else {
      AppendDescends(k, s, Slice(buf, 0), Blank(k));
    }
  }

  lemma WorkRankMore(ws: seq<Worker>, w: Worker)
    requires w.phase.Copying?
    ensures WorkRank(ws + [w]) == WorkRank(ws) + 6
  {
    assert (ws + [w])[..|ws|] == ws;
  }

  lemma HandedOver(k: Setup, s: State, u: State, w: Worker)
    requires u.cancelled == s.cancelled && u.scan == s.scan && u.run == s.run
    requires u.shop.results == s.shop.results && u.shop.pool == s.shop.pool
    requires u.shop.workers == s.shop.workers + [w] && w.phase.Copying? && JoinRank(u.join) + 7 <= JoinRank(s.join)
    ensures Rank(k, u) < Rank(k, s)
  {
    WorkRankMore(s.shop.workers, w);
  }

  lemma SubmitDescends(k: Setup, s: State)
    requires s.join.chunk.Some? && s.shop.permits > 0 && s.join.phase.Acquiring? && s.join.chunk.value.len >= 1
    ensures Rank(k, Submit(s)) < Rank(k, s)
  {
    HandedOver(k, s, Submit(s), Worker(s.join.chunk.value, Copying, []));
  }

  lemma GiveUpDescends(k: Setup, s: State, a: JoinAction)
    requires s.join.chunk.Some? ==> s.join.chunk.value.len >= 1
    requires JoinStep(k, s, a).Some? && (a.SeeDone? || a.AcquireFails?)
    ensures Rank(k, JoinStep(k, s, a).value) < Rank(k, s)
  {
  }

  lemma JoinDescends(k: Setup, s: State, a: JoinAction)
    requires Ownership(k, s.join, s.shop) && Phases(k, s.join)
    requires JoinStep(k, s, a).Some? && JoinStep(k, s, a).value != s
    ensures Rank(k, JoinStep(k, s, a).value) < Rank(k, s)
  {
    match a {
      case Receive(buf) => ReceiveDescends(k, s, buf);
      case AcquireOne => SubmitDescends(k, s);
      case SeeDone | AcquireFails => GiveUpDescends(k, s, a);
      case _ =>
    }
  }

  lemma OnlyTicksStutter(k: Setup, s: State, a: JoinAction)
    requires Phases(k, s.join) && JoinStep(k, s, a).Some? && !a.Tick?
    ensures JoinStep(k, s, a).value != s
  {
  }

  /** Every step lowers the rank, except a tick that finds no chunk to flush. */
  lemma StepsDescend(k: Setup, s: State, a: Action)
    requires Inv(k, s) && Next(k, s, a).Some?
    ensures Next(k, s, a).value == s ==> a == Join(Tick)
    ensures Next(k, s, a).value != s ==> Rank(k, Next(k, s, a).value) < Rank(k, s)
  {
    match a {
      case Join(b) =>
        if !b.Tick? {
          OnlyTicksStutter(k, s, b);
        }
        if JoinStep(k, s, b).value != s {
          JoinDescends(k, s, b);
        }
      case Work(b) => WorkDescends(k, s.shop, b);
      case Scan(b) => ScanDescends(k, s, b);
      case Run(b) => RunDescends(k, s, b);
    }
  }

  lemma ScanDescends(k: Setup, s: State, a: ScanAction)
    requires s.scan.scanned <= |k.input| && ScanStep(k, s.cancelled, s.scan, a).Some?
    ensures ScanRank(k, ScanStep(k, s.cancelled, s.scan, a).value) < ScanRank(k, s.scan)
  {
  }

  lemma RunDescends(k: Setup, s: State, a: RunAction)
    requires RunStep(s, a).Some?
    ensures Rank(k, RunStep(s, a).value) < Rank(k, s)
  {
  }

  /** Apart from empty ticks, no run is longer than eleven steps plus ten per
      scanned entry, wherever it is cancelled. */
  lemma RunsAreBounded(k: Setup, trace: seq<State>)
    requires k.Valid() && Schedule(k, trace)
    requires forall i | 0 <= i < |trace| - 1 :: trace[i] != trace[i + 1]
    ensures |trace| <= 12 + 10 * |k.input|
  {
    RankFalls(k, trace, |trace| - 1);
    ScheduleKeepsInv(k, trace, |trace| - 1);
  }

  lemma {:induction false} RankFalls(k: Setup, trace: seq<State>, n: nat)
    requires k.Valid() && Schedule(k, trace) && n < |trace|
    requires forall i | 0 <= i < |trace| - 1 :: trace[i] != trace[i + 1]
    ensures Rank(k, trace[n]) + n <= Rank(k, trace[0])
  {
    if n > 0 {
      RankFalls(k, trace, n - 1);
      ScheduleKeepsInv(k, trace, n - 1);
      assert Follows(k, trace[n - 1], trace[n]);
      var a :| Next(k, trace[n - 1], a) == Some(trace[n]);
      StepsDescend(k, trace[n - 1], a);
    }
  }
}
