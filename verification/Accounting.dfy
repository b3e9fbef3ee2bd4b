/** The counters and the ring of recent file names a chunk reports. */
module Accounting {
  import opened Tree
  import opened Mirror
  import opened Idempotence
  import opened Sequences

  // ---- The counters as a function of the outcomes ----

  datatype Tally = Tally(sent: nat, processed: nat, uptodate: nat, disappeared: nat, skipped: nat, errors: nat,
                         sentBytes: nat, files: nat, links: nat, directories: nat)

  function Zero(): Tally {
    Tally(0, 0, 0, 0, 0, 0, 0, 0, 0, 0)
  }

  function Typed(t: Tally, kind: Kind, counted: bool): Tally {
    t.(files := t.files + Bit(counted && kind.Regular?),
       links := t.links + Bit(counted && kind.Symlink?),
       directories := t.directories + Bit(counted && kind.Directory?))
  }

  /** The outcomes after which the entry's type is counted. */
  predicate CountsType(out: Outcome) {
    out.Sent? || out.Processed? || out.Uptodate? || out.Skipped?
  }

  function Counted(t: Tally, kind: Kind, out: Outcome): Tally {
    Typed(Tally(t.sent + Bit(out.Sent?), t.processed + Bit(out.Processed?), t.uptodate + Bit(out.Uptodate?),
                t.disappeared + Bit(out.Disappeared?), t.skipped + Bit(out.Skipped?),
                t.errors + Bit(out.NoSpace? || out.Failed?),
                t.sentBytes + (if out.Sent? then out.bytes else 0), t.files, t.links, t.directories),
          kind, CountsType(out))
  }

  /** The counters after the first `n` outcomes. */
  function TallyOf(list: seq<Entry>, outs: seq<Outcome>, n: nat): Tally
    requires n <= |outs| <= |list|
  {
    if n == 0 then Zero() else Counted(TallyOf(list, outs, n - 1), list[n - 1].kind, outs[n - 1])
  }

  lemma {:induction false} TallyOfPrefix(list: seq<Entry>, outs: seq<Outcome>, outs': seq<Outcome>, n: nat)
    requires n <= |outs| <= |outs'| <= |list| && outs <= outs'
    ensures TallyOf(list, outs, n) == TallyOf(list, outs', n)
  {
    if n > 0 { TallyOfPrefix(list, outs, outs', n - 1); }
  }

  /** Only the last outcome may have stopped the loop. */
  ghost predicate LoopOutcomes(list: seq<Entry>, outs: seq<Outcome>) {
    && |outs| <= |list|
    && (forall i | 0 <= i < |outs| - 1 :: !outs[i].Cancelled? && !outs[i].NoSpace?)
    && (forall i | 0 <= i < |outs| :: outs[i].Skipped? <==> list[i].kind.Other?)
    && (|outs| < |list| ==> outs != [] && (outs[|outs| - 1].Cancelled? || outs[|outs| - 1].NoSpace?))
  }

  /** No outcome so far has stopped the loop. */
  ghost predicate Ongoing(list: seq<Entry>, outs: seq<Outcome>) {
    && |outs| <= |list|
    && (forall i | 0 <= i < |outs| :: !outs[i].Cancelled? && !outs[i].NoSpace?)
    && (forall i | 0 <= i < |outs| :: outs[i].Skipped? <==> list[i].kind.Other?)
  }

  lemma OngoingStep(list: seq<Entry>, outs: seq<Outcome>, out: Outcome)
    requires Ongoing(list, outs) && |outs| < |list|
    requires out.Skipped? <==> list[|outs|].kind.Other?
    ensures out.Cancelled? || out.NoSpace? || |outs| + 1 == |list| ==> LoopOutcomes(list, outs + [out])
    ensures !out.Cancelled? && !out.NoSpace? ==> Ongoing(list, outs + [out])
  {
  }

  lemma OngoingIsDone(list: seq<Entry>, outs: seq<Outcome>)
    requires Ongoing(list, outs) && |outs| == |list|
    ensures LoopOutcomes(list, outs) && NoSpace !in outs
  {
  }

  /** What the counters leave out: the entry a cancellation stopped at and
      every entry after the loop broke. */
  function Unvisited(list: seq<Entry>, outs: seq<Outcome>): int {
    |list| - |outs| + if outs != [] && outs[|outs| - 1].Cancelled? then 1 else 0
  }

  function Finished(t: Tally): nat {
    t.sent + t.processed + t.uptodate
  }

  function Handled(t: Tally): nat {
    Finished(t) + t.disappeared + t.skipped + t.errors
  }

  function ByType(t: Tally): nat {
    t.files + t.links + t.directories
  }

  ghost predicate AddsUp(outs: seq<Outcome>, n: nat, t: Tally)
    requires n <= |outs|
  {
    && n == Handled(t) + (if n > 0 && outs[n - 1].Cancelled? then 1 else 0)
    && ByType(t) == Finished(t)
    && (t.sent == 0 ==> t.sentBytes == 0)
  }

  /** One more outcome, none before it having stopped the loop. */
  lemma OneMoreAddsUp(outs: seq<Outcome>, n: nat, t: Tally, u: Tally, kind: Kind)
    requires 0 < n <= |outs| && AddsUp(outs, n - 1, t) && (n > 1 ==> !outs[n - 2].Cancelled?)
    requires outs[n - 1].Skipped? <==> kind.Other?
    requires u == Counted(t, kind, outs[n - 1])
    ensures AddsUp(outs, n, u)
  {
  }

  lemma CountedAddsUp(list: seq<Entry>, outs: seq<Outcome>, n: nat, t: Tally, u: Tally)
    requires LoopOutcomes(list, outs) && 0 < n <= |outs| && AddsUp(outs, n - 1, t)
    requires u == Counted(t, list[n - 1].kind, outs[n - 1])
    ensures AddsUp(outs, n, u)
  {
    OneMoreAddsUp(outs, n, t, u, list[n - 1].kind);
  }

  lemma NothingAddsUp(outs: seq<Outcome>, t: Tally)
    requires t == Zero()
    ensures AddsUp(outs, 0, t)
  {
  }

  lemma {:induction false} PrefixAddsUp(list: seq<Entry>, outs: seq<Outcome>, n: nat)
    requires LoopOutcomes(list, outs) && n <= |outs|
    ensures AddsUp(outs, n, TallyOf(list, outs, n))
  {
    if n > 0 {
      PrefixAddsUp(list, outs, n - 1);
      CountedAddsUp(list, outs, n, TallyOf(list, outs, n - 1), TallyOf(list, outs, n));
    } else {
      NothingAddsUp(outs, Zero());
    }
  }

  /** At the end of the loop the sums are those of the whole list. */
  lemma AllAddUp(list: seq<Entry>, outs: seq<Outcome>, t: Tally)
    requires LoopOutcomes(list, outs) && AddsUp(outs, |outs|, t)
    ensures |list| == t.sent + t.processed + t.uptodate + t.disappeared + t.skipped + t.errors + Unvisited(list, outs)
    ensures t.files + t.links + t.directories == t.sent + t.processed + t.uptodate
    ensures t.sent == 0 ==> t.sentBytes == 0
  {
  }

  lemma AllVisited(list: seq<Entry>, outs: seq<Outcome>)
    requires LoopOutcomes(list, outs) && |outs| == |list| && Cancelled !in outs
    ensures Unvisited(list, outs) == 0
  {
    if outs != [] { assert outs[|outs| - 1] in outs; }
  }

  /** Every scheduled entry is counted exactly once, and the type counters
      count exactly the entries that were sent, processed or up to date. */
  lemma TallyAddsUp(list: seq<Entry>, outs: seq<Outcome>)
    requires LoopOutcomes(list, outs)
    ensures var t := TallyOf(list, outs, |outs|);
            && |list| == t.sent + t.processed + t.uptodate + t.disappeared + t.skipped + t.errors
                         + Unvisited(list, outs)
            && t.files + t.links + t.directories == t.sent + t.processed + t.uptodate
            && (t.sent == 0 ==> t.sentBytes == 0)
    ensures |outs| == |list| && Cancelled !in outs ==> Unvisited(list, outs) == 0
  {
    PrefixAddsUp(list, outs, |outs|);
    AllAddUp(list, outs, TallyOf(list, outs, |outs|));
    if |outs| == |list| && Cancelled !in outs { AllVisited(list, outs); }
  }

  /** Some entry of the pass failed. */
  ghost predicate Erred(outs: seq<Outcome>) {
    exists i :: 0 <= i < |outs| && (outs[i].Failed? || outs[i].NoSpace?)
  }

  /** The outcome that ended a pass. */
  function Last(outs: seq<Outcome>): Outcome {
    if outs == [] then Skipped else outs[|outs| - 1]
  }

  /** What repeating a pass comes to: each but the last had errors, and did not end
      with a full disk. */
  ghost predicate Repeated(list: seq<Entry>, passes: seq<seq<Outcome>>) {
    && (forall i | 0 <= i < |passes| :: LoopOutcomes(list, passes[i]))
    && (forall i | 0 <= i < |passes| - 1 :: Erred(passes[i]) && !Last(passes[i]).NoSpace?)
  }

  lemma {:induction false} ErrorsAreCounted(list: seq<Entry>, outs: seq<Outcome>, n: nat)
    requires n <= |outs| <= |list|
    ensures TallyOf(list, outs, n).errors > 0 <==> exists i :: 0 <= i < n && (outs[i].Failed? || outs[i].NoSpace?)
  {
    if n > 0 { ErrorsAreCounted(list, outs, n - 1); }
  }

  // ---- What each counter counts ----

  lemma OneMoreCounted(n: nat, a: set<nat>, b: set<nat>, more: bool)
    requires n !in a && forall i: nat :: i in b <==> i in a || (i == n && more)
    ensures |b| == |a| + Bit(more)
  {
    assert b == if more then a + {n} else a;
  }

  /** Each outcome is counted under its own name. */
  ghost predicate CountsOutcomes(outs: seq<Outcome>, n: nat, t: Tally)
    requires n <= |outs|
  {
    && t.sent == |set i: nat | i < n && outs[i].Sent?|
    && t.processed == |set i: nat | i < n && outs[i].Processed?|
    && t.uptodate == |set i: nat | i < n && outs[i].Uptodate?|
    && t.disappeared == |set i: nat | i < n && outs[i].Disappeared?|
    && t.skipped == |set i: nat | i < n && outs[i].Skipped?|
    && t.errors == |set i: nat | i < n && (outs[i].NoSpace? || outs[i].Failed?)|
  }

  /** Of the entries so counted, each is counted under its type. */
  ghost predicate CountsTypes(list: seq<Entry>, outs: seq<Outcome>, n: nat, t: Tally)
    requires n <= |outs| <= |list|
  {
    && t.files == |set i: nat | i < n && CountsType(outs[i]) && list[i].kind.Regular?|
    && t.links == |set i: nat | i < n && CountsType(outs[i]) && list[i].kind.Symlink?|
    && t.directories == |set i: nat | i < n && CountsType(outs[i]) && list[i].kind.Directory?|
  }

  lemma OneMoreOutcome(outs: seq<Outcome>, n: nat, t: Tally, u: Tally, kind: Kind)
    requires n < |outs| && CountsOutcomes(outs, n, t) && u == Counted(t, kind, outs[n])
    ensures CountsOutcomes(outs, n + 1, u)
  {
    var m := n + 1;
    OneMoreCounted(n, (set i: nat | i < n && outs[i].Sent?), (set i: nat | i < m && outs[i].Sent?), outs[n].Sent?);
    OneMoreCounted(n, (set i: nat | i < n && outs[i].Processed?), (set i: nat | i < m && outs[i].Processed?),
                   outs[n].Processed?);
    OneMoreCounted(n, (set i: nat | i < n && outs[i].Uptodate?), (set i: nat | i < m && outs[i].Uptodate?),
                   outs[n].Uptodate?);
    OneMoreCounted(n, (set i: nat | i < n && outs[i].Disappeared?), (set i: nat | i < m && outs[i].Disappeared?),
                   outs[n].Disappeared?);
    OneMoreCounted(n, (set i: nat | i < n && outs[i].Skipped?), (set i: nat | i < m && outs[i].Skipped?),
                   outs[n].Skipped?);
    OneMoreCounted(n, (set i: nat | i < n && (outs[i].NoSpace? || outs[i].Failed?)),
                   (set i: nat | i < m && (outs[i].NoSpace? || outs[i].Failed?)), outs[n].NoSpace? || outs[n].Failed?);
  }

  lemma OneMoreType(list: seq<Entry>, outs: seq<Outcome>, n: nat, t: Tally, u: Tally)
    requires n < |outs| <= |list| && CountsTypes(list, outs, n, t) && u == Counted(t, list[n].kind, outs[n])
    ensures CountsTypes(list, outs, n + 1, u)
  {
    var m, counted := n + 1, CountsType(outs[n]);
    OneMoreCounted(n, (set i: nat | i < n && CountsType(outs[i]) && list[i].kind.Regular?),
                   (set i: nat | i < m && CountsType(outs[i]) && list[i].kind.Regular?),
                   counted && list[n].kind.Regular?);
    OneMoreCounted(n, (set i: nat | i < n && CountsType(outs[i]) && list[i].kind.Symlink?),
                   (set i: nat | i < m && CountsType(outs[i]) && list[i].kind.Symlink?),
                   counted && list[n].kind.Symlink?);
    OneMoreCounted(n, (set i: nat | i < n && CountsType(outs[i]) && list[i].kind.Directory?),
                   (set i: nat | i < m && CountsType(outs[i]) && list[i].kind.Directory?),
                   counted && list[n].kind.Directory?);
  }

  lemma NothingIsCounted(list: seq<Entry>, outs: seq<Outcome>, t: Tally)
    requires |outs| <= |list| && t == Zero()
    ensures CountsOutcomes(outs, 0, t) && CountsTypes(list, outs, 0, t)
  {
  }

  /** After any number of outcomes each counter is the number of outcomes, or of
      entries of a type, that it is named for. */
  lemma {:induction false} CountersCount(list: seq<Entry>, outs: seq<Outcome>, n: nat)
    requires n <= |outs| <= |list|
    ensures CountsOutcomes(outs, n, TallyOf(list, outs, n)) && CountsTypes(list, outs, n, TallyOf(list, outs, n))
  {
    if n == 0 {
      NothingIsCounted(list, outs, Zero());
    } else {
      var t, u := TallyOf(list, outs, n - 1), TallyOf(list, outs, n);
      CountersCount(list, outs, n - 1);
      OneMoreOutcome(outs, n - 1, t, u, list[n - 1].kind);
      OneMoreType(list, outs, n - 1, t, u);
    }
  }

  /** The bytes of all files sent, from the first outcome on. */
  function Bytes(outs: seq<Outcome>): nat {
    if outs == [] then 0 else (if outs[0].Sent? then outs[0].bytes else 0) + Bytes(outs[1..])
  }

  lemma {:induction false} BytesAdd(outs: seq<Outcome>, out: Outcome)
    ensures Bytes(outs + [out]) == Bytes(outs) + if out.Sent? then out.bytes else 0
  {
    if outs == [] {
      assert [out][1..] == [];
    } else {
      assert (outs + [out])[1..] == outs[1..] + [out];
      BytesAdd(outs[1..], out);
    }
  }

  /** The byte counter is the sum over the files that were sent. */
  lemma {:induction false} BytesAreCounted(list: seq<Entry>, outs: seq<Outcome>, n: nat)
    requires n <= |outs| <= |list|
    ensures TallyOf(list, outs, n).sentBytes == Bytes(outs[..n])
  {
    if n > 0 {
      BytesAreCounted(list, outs, n - 1);
      assert outs[..n] == outs[..n - 1] + [outs[n - 1]];
      BytesAdd(outs[..n - 1], outs[n - 1]);
    }
  }

  // ---- The report of a second run ----

  /** As it should be: a link, a directory other than the root, or a file of the
      source's size and time. */
  predicate Current(t: Tree, c: Config, src: Source, e: Entry) {
    || e.kind.Symlink? || (e.kind.Directory? && e.path != [])
    || (e.kind.Regular? && SameThere(t, c, src, e))
  }

  /** The root, or a file that is newer than its source. */
  predicate Ahead(t: Tree, c: Config, src: Source, e: Entry) {
    (e.kind.Directory? && e.path == []) || (e.kind.Regular? && NewerThere(t, c, src, e))
  }

  predicate Gone(src: Source, e: Entry) {
    e.kind.Regular? && e.path !in src
  }

  lemma ReportedAs(t: Tree, c: Config, src: Source, e: Entry, out: Outcome)
    requires Reported(t, c, src, e, out)
    ensures (out.Uptodate? <==> Current(t, c, src, e)) && (out.Processed? <==> Ahead(t, c, src, e))
    ensures (out.Disappeared? <==> Gone(src, e)) && (out.Skipped? <==> e.kind.Other?)
    ensures !out.Sent? && !out.NoSpace? && !out.Failed?
  {
  }

  /** The counters of a run that only met settled entries. */
  ghost predicate ReportsSettled(t: Tree, c: Config, src: Source, list: seq<Entry>, u: Tally) {
    && u.uptodate == |set i: nat | i < |list| && Current(t, c, src, list[i])|
    && u.processed == |set i: nat | i < |list| && Ahead(t, c, src, list[i])|
    && u.disappeared == |set i: nat | i < |list| && Gone(src, list[i])|
    && u.skipped == |set i: nat | i < |list| && list[i].kind.Other?|
    && u.sent == u.sentBytes == u.errors == 0
  }

  lemma SettledReport(t: Tree, c: Config, src: Source, list: seq<Entry>, outs: seq<Outcome>, u: Tally)
    requires |outs| == |list| && forall i | 0 <= i < |list| :: Reported(t, c, src, list[i], outs[i])
    requires CountsOutcomes(outs, |outs|, u) && (u.sent == 0 ==> u.sentBytes == 0)
    ensures ReportsSettled(t, c, src, list, u)
  {
    var n := |list|;
    forall i | 0 <= i < n
      ensures outs[i].Uptodate? <==> Current(t, c, src, list[i])
      ensures outs[i].Processed? <==> Ahead(t, c, src, list[i])
      ensures (outs[i].Disappeared? <==> Gone(src, list[i])) && (outs[i].Skipped? <==> list[i].kind.Other?)
      ensures !outs[i].Sent? && !outs[i].NoSpace? && !outs[i].Failed?
    {
      ReportedAs(t, c, src, list[i], outs[i]);
    }
    assert (set i: nat | i < n && outs[i].Uptodate?) == (set i: nat | i < n && Current(t, c, src, list[i]));
    assert (set i: nat | i < n && outs[i].Processed?) == (set i: nat | i < n && Ahead(t, c, src, list[i]));
    assert (set i: nat | i < n && outs[i].Disappeared?) == (set i: nat | i < n && Gone(src, list[i]));
    assert (set i: nat | i < n && outs[i].Skipped?) == (set i: nat | i < n && list[i].kind.Other?);
    assert (set i: nat | i < n && outs[i].Sent?) == {};
    assert (set i: nat | i < n && (outs[i].NoSpace? || outs[i].Failed?)) == {};
  }

  lemma ReportIsComplete(t: Tree, c: Config, src: Source, list: seq<Entry>, outs: seq<Outcome>)
    requires |outs| == |list| && forall i | 0 <= i < |list| :: Reported(t, c, src, list[i], outs[i])
    ensures LoopOutcomes(list, outs)
  {
    forall i | 0 <= i < |list|
      ensures (outs[i].Skipped? <==> list[i].kind.Other?) && !outs[i].Cancelled? && !outs[i].NoSpace?
    {
      ReportedAs(t, c, src, list[i], outs[i]);
    }
  }

  /** After an error-free run, a second run over any of its entries, in any
      order, reports as up to date exactly the links, the directories other than
      the root and the files of equal time, as processed the root and the newer
      files, as disappeared the files whose source is gone, and nothing else. */
  lemma SecondRunReports(t: Tree, c: Config, src: Source, plan: Plan, list: seq<Entry>, again: seq<Entry>)
    requires ValidConfig(c) && RootReady(t, c) && ValidPlan(plan) && Drawn(list, plan)
    requires ErrorFree(Run(t, c, src, list).outs) && forall e | e in again :: e in list
    ensures var first := Run(t, c, src, list).tree; var outs := Run(first, c, src, again).outs;
      |outs| == |again| && ReportsSettled(first, c, src, again, TallyOf(again, outs, |outs|))
  {
    SecondRunIsQuiet(t, c, src, plan, list, again);
    var first := Run(t, c, src, list).tree;
    var outs := Run(first, c, src, again).outs;
    CountersCount(again, outs, |outs|);
    ReportIsComplete(first, c, src, again, outs);
    TallyAddsUp(again, outs);
    SettledReport(first, c, src, again, outs, TallyOf(again, outs, |outs|));
  }

  // ---- Recent file names ----

  const RING := 10

  function Render(path: Path): string {
    if path == [] then "." else if |path| == 1 then path[0] else Render(path[..|path| - 1]) + "/" + path[|path| - 1]
  }

  function LastTen(names: seq<string>): seq<string> {
    if |names| <= RING then names else names[|names| - RING..]
  }

  function NonEmpty(names: seq<string>): seq<string> {
    if names == [] then []
    else NonEmpty(names[..|names| - 1]) + if names[|names| - 1] == "" then [] else [names[|names| - 1]]
  }

  lemma {:induction false} NonEmptyPadding(n: nat, names: seq<string>)
    ensures NonEmpty(seq(n, _ => "") + names) == NonEmpty(names)
    decreases n + |names|
  {
    if names != [] {
      var k := |names| - 1;
      NonEmptyPadding(n, names[..k]);
      var all := seq(n, _ => "") + names;
      assert all[..|all| - 1] == seq(n, _ => "") + names[..k];
    } else if n > 0 {
      NonEmptyPadding(n - 1, []);
      var all := seq(n, _ => "") + names;
      assert all[..|all| - 1] == seq(n - 1, _ => "") + [];
      assert all[|all| - 1] == "";
    }
  }

  /** The name `RING - k` places from the end, or the empty initial slot. */
  function Recent(names: seq<string>, k: nat): string
    requires k < RING
  {
    if |names| + k < RING then "" else names[|names| + k - RING]
  }

  lemma RingStep(start: nat, k: nat)
    requires start < RING && k < RING
    ensures ((start + 1) % RING + k) % RING == if k == RING - 1 then start else (start + (k + 1)) % RING
    ensures k < RING - 1 ==> (start + (k + 1)) % RING != start
  {
  }

  lemma RecentAppend(names: seq<string>, name: string, k: nat)
    requires k < RING
    ensures Recent(names + [name], k) == if k == RING - 1 then name else Recent(names, k + 1)
  {
  }

  lemma CursorStep(n: nat)
    ensures (n % RING + 1) % RING == (n + 1) % RING
  {
  }

  class Result {
    var startIdx: nat
    var lastFilenames: array<string>
    var total: nat
    var counts: Tally
    ghost var names: seq<string>

    /** Slot `k` places after the cursor holds the k-th oldest of ten names. */
    ghost predicate Valid()
      reads this, lastFilenames
    {
      && lastFilenames.Length == RING
      && startIdx == |names| % RING
      && forall k | 0 <= k < RING :: Slot(k) == Recent(names, k)
    }

    function Slot(k: nat): string
      requires lastFilenames.Length == RING
      reads this, lastFilenames
    {
      lastFilenames[(startIdx + k) % RING]
    }

    constructor (total: nat)
      ensures Valid() && fresh(lastFilenames) && names == [] && counts == Zero() && this.total == total
    {
      startIdx := 0;
      lastFilenames := new string[RING](_ => "");
      this.total := total;
      counts := Zero();
      names := [];
    }

    method AppendFilename(filename: string)
      requires Valid()
      modifies this`startIdx, this`names, lastFilenames
      ensures Valid() && names == old(names) + [filename]
    {
      lastFilenames[startIdx] := filename;
      startIdx := (startIdx + 1) % RING;
      names := names + [filename];
      CursorStep(|old(names)|);
      forall k | 0 <= k < RING ensures Slot(k) == Recent(names, k) {
        RingStep(old(startIdx), k);
        RecentAppend(old(names), filename, k);
        if k < RING - 1 {
          assert Slot(k) == old(Slot(k + 1)) == Recent(old(names), k + 1);
        }
      }
    }

    /** The last ten names in the order they were appended, empty ones dropped. */
    method ListFilename() returns (filenames: seq<string>)
      requires Valid()
      ensures filenames == NonEmpty(LastTen(names))
    {
      filenames := [];
      ghost var slots: seq<string> := [];
      var i := 0;
      while i < RING
        invariant 0 <= i <= RING && |slots| == i
        invariant forall k | 0 <= k < i :: slots[k] == Slot(k)
        invariant filenames == NonEmpty(slots)
      {
        var filename := lastFilenames[(startIdx + i) % RING];
        if |filename| > 0 {
          filenames := filenames + [filename];
        }
        assert (slots + [filename])[..|slots|] == slots;
        slots := slots + [filename];
        i := i + 1;
      }
      var pad := if |names| < RING then RING - |names| else 0;
      forall k | 0 <= k < RING ensures slots[k] == (seq(pad, _ => "") + LastTen(names))[k] {
        assert slots[k] == Slot(k) == Recent(names, k);
      }
      assert slots == seq(pad, _ => "") + LastTen(names);
      NonEmptyPadding(pad, LastTen(names));
    }

    method AddTypeCount(kind: Kind)
      modifies this`counts
      ensures counts == Typed(old(counts), kind, true)
    {
      if kind.Directory? {
        counts := counts.(directories := counts.directories + 1);
      } else if kind.Symlink? {
        counts := counts.(links := counts.links + 1);
      } else if kind.Regular? {
        counts := counts.(files := counts.files + 1);
      }
    }

    /** The branches after one entry; `stop` breaks the loop. */
    method Count(kind: Kind, out: Outcome) returns (stop: bool)
      modifies this`counts
      ensures counts == Counted(old(counts), kind, out)
      ensures stop <==> out.Cancelled? || out.NoSpace?
    {
      match out {
        case Sent(bytes) =>
          AddTypeCount(kind);
          counts := counts.(sent := counts.sent + 1, sentBytes := counts.sentBytes + bytes);
        case Processed =>
          AddTypeCount(kind);
          counts := counts.(processed := counts.processed + 1);
        case Cancelled => return true;
        case Uptodate =>
          AddTypeCount(kind);
          counts := counts.(uptodate := counts.uptodate + 1);
        case Disappeared => counts := counts.(disappeared := counts.disappeared + 1);
        case Skipped =>
          AddTypeCount(kind);
          counts := counts.(skipped := counts.skipped + 1);
        case NoSpace =>
          counts := counts.(errors := counts.errors + 1);
          return true;
        case Failed => counts := counts.(errors := counts.errors + 1);
      }
      return false;
    }
  }

  function Names(list: seq<Entry>, n: nat): seq<string>
    requires n <= |list|
  {
    if n == 0 then [] else Names(list, n - 1) + [Render(list[n - 1].path)]
  }

  /** The report agrees with the outcomes of the entries handled so far. */
  ghost predicate Agrees(res: Result, list: seq<Entry>, outs: seq<Outcome>)
    reads res, res.lastFilenames
  {
    && res.Valid() && res.total == |list| && |outs| <= |list|
    && res.counts == TallyOf(list, outs, |outs|)
    && res.names == Names(list, |outs|)
  }

  /** Records one outcome; `stop` breaks the loop. */
  method Book(res: Result, list: seq<Entry>, ghost outs: seq<Outcome>, k: nat, out: Outcome) returns (stop: bool)
    requires Agrees(res, list, outs) && k == |outs| < |list|
    modifies res, res.lastFilenames
    ensures Agrees(res, list, outs + [out]) && res.lastFilenames == old(res.lastFilenames)
    ensures stop <==> out.Cancelled? || out.NoSpace?
  {
    res.AppendFilename(Render(list[k].path));
    stop := res.Count(list[k].kind, out);
    TallyOfPrefix(list, outs, outs + [out], k);
  }
}
