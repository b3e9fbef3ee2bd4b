/** The pid file shared by any number of processes: open or create, lock,
    truncate, write, and the cleanup that removes it again. Each system call
    is one step; a process may fail at any of them or crash between two. */
module PidFile {
  import opened Tree
  import Sequences
  import Strconv

  type Inode = nat

  type Pid = nat

  /** Where a process is: the last call it has completed. `Matched` is inside
      the cleanup, after the identity check and before the removal. */
  datatype Phase = Started | Opened | Locked | Emptied | Running | Matched | Closing | Ended

  /** `ino` is the file behind the descriptor, from `Opened` to `Closing`. */
  datatype Proc = Proc(phase: Phase, ino: Inode)

  /** `path` is the inode the pid file name leads to; `locks` the exclusive
      lock holders. A file lives while it is named or held open. */
  datatype State = State(path: Option<Inode>, files: map<Inode, string>, locks: map<Inode, Pid>, procs: map<Pid, Proc>)

  /** `ino` is the number the file system gives to a newly created file. */
  datatype Action =
    | Spawn(p: Pid)
    | Open(p: Pid, ino: Inode)
    | Lock(p: Pid)
    | Truncate(p: Pid)
    | Write(p: Pid, n: nat)
    | Check(p: Pid, fails: bool)
    | Remove(p: Pid, fails: bool)
    | Close(p: Pid)

  /** What a process writes: its pid and a line feed. */
  function Text(p: Pid): string {
    Strconv.Dec(p) + "\n"
  }

  predicate Alive(phase: Phase) {
    !phase.Started? && !phase.Ended?
  }

  predicate In(s: State, p: Pid, phase: Phase) {
    p in s.procs && s.procs[p].phase == phase
  }

  function At(s: State, p: Pid, phase: Phase): State
    requires p in s.procs
  {
    s.(procs := s.procs[p := s.procs[p].(phase := phase)])
  }

  /** Closing the descriptor releases the lock if it was held. */
  function Shut(s: State, p: Pid): State
    requires p in s.procs
  {
    var i := s.procs[p].ino;
    At(s, p, Ended).(locks := if i in s.locks && s.locks[i] == p then s.locks - {i} else s.locks)
  }

  /** An inode number can be handed out again once nothing refers to it. */
  ghost predicate Unused(s: State, i: Inode) {
    s.path != Some(i) && forall p | p in s.procs && Alive(s.procs[p].phase) :: s.procs[p].ino != i
  }

  ghost predicate Enabled(s: State, a: Action) {
    match a
    case Spawn(p) => p !in s.procs || s.procs[p].phase.Ended?
    case Open(p, i) => In(s, p, Started) && (s.path.Some? || Unused(s, i))
    case Lock(p) => In(s, p, Opened) && s.procs[p].ino !in s.locks
    case Truncate(p) => In(s, p, Locked)
    case Write(p, n) => In(s, p, Emptied) && s.procs[p].ino in s.files && n <= |Text(p)|
    case Check(p, _) => In(s, p, Running)
    case Remove(p, _) => In(s, p, Matched)
    case Close(p) => p in s.procs && Alive(s.procs[p].phase)
  }

  /** One system call. `Close` covers the end of the cleanup, every error
      return, and a crash, all of which drop the descriptor; a short write is
      an error, which closes next. The check and the removal go by name. */
  function Apply(s: State, a: Action): State
    requires Enabled(s, a)
  {
    match a
    case Spawn(p) => s.(procs := s.procs[p := Proc(Started, 0)])
    case Open(p, i) =>
      if s.path.Some? then s.(procs := s.procs[p := Proc(Opened, s.path.value)])
      else s.(path := Some(i), files := s.files[i := ""], procs := s.procs[p := Proc(Opened, i)])
    case Lock(p) => At(s, p, Locked).(locks := s.locks[s.procs[p].ino := p])
    case Truncate(p) => At(s, p, Emptied).(files := s.files[s.procs[p].ino := ""])
    case Write(p, n) =>
      var i := s.procs[p].ino;
      At(s, p, if n == |Text(p)| then Running else Closing).(files := s.files[i := s.files[i] + Text(p)[..n]])
    case Check(p, fails) => At(s, p, if !fails && s.path == Some(s.procs[p].ino) then Matched else Closing)
    case Remove(p, fails) => At(s, p, Closing).(path := if fails then s.path else None)
    case Close(p) => Shut(s, p)
  }

  /** Any earlier pid file may be left over; no process is there yet. */
  predicate Initial(s: State) {
    s.procs == map[] && s.locks == map[] && (s.path.Some? ==> s.path.value in s.files)
  }

  /** The state after a run of calls, if each was possible. */
  ghost function Play(s: State, run: seq<Action>): Option<State> {
    if run == [] then Some(s)
    else
      var u := Play(s, run[..|run| - 1]);
      var a := run[|run| - 1];
      if u.Some? && Enabled(u.value, a) then Some(Apply(u.value, a)) else None
  }

  // ---- The invariant ----

  predicate Holds(phase: Phase) {
    phase.Locked? || phase.Emptied? || phase.Running? || phase.Matched?
  }

  ghost predicate LocksMatch(s: State) {
    && (forall i | i in s.locks ::
          s.locks[i] in s.procs && s.procs[s.locks[i]].ino == i
          && (Holds(s.procs[s.locks[i]].phase) || s.procs[s.locks[i]].phase.Closing?))
    && (forall p | p in s.procs && Holds(s.procs[p].phase) :: s.procs[p].ino in s.locks && s.locks[s.procs[p].ino] == p)
  }

  ghost predicate FilesExist(s: State) {
    && (s.path.Some? ==> s.path.value in s.files)
    && (forall p | p in s.procs && Alive(s.procs[p].phase) :: s.procs[p].ino in s.files)
  }

  predicate Written(s: State, p: Pid)
    requires p in s.procs
  {
    var c := s.procs[p];
    && (c.phase.Emptied? ==> c.ino in s.files && s.files[c.ino] == "")
    && (c.phase.Running? || c.phase.Matched? ==> c.ino in s.files && s.files[c.ino] == Text(p))
    && (c.phase.Matched? ==> s.path == Some(c.ino))
  }

  ghost predicate Inv(s: State) {
    LocksMatch(s) && FilesExist(s) && forall p | p in s.procs :: Written(s, p)
  }

  lemma OpenKeepsInv(s: State, p: Pid, i: Inode)
    requires Inv(s) && Enabled(s, Open(p, i))
    ensures Inv(Apply(s, Open(p, i)))
  {
    var u := Apply(s, Open(p, i));
    OpenKeepsLocks(s, p, i);
    forall q | q in u.procs ensures Written(u, q) {
      assert Written(s, q);
    }
  }

  lemma OpenKeepsLocks(s: State, p: Pid, i: Inode)
    requires LocksMatch(s) && FilesExist(s) && Enabled(s, Open(p, i))
    ensures LocksMatch(Apply(s, Open(p, i))) && FilesExist(Apply(s, Open(p, i)))
  {
  }

  /** Truncating and writing happen under the lock, so they touch no other
      process's text. */
  lemma EditKeepsInv(s: State, a: Action)
    requires Inv(s) && Enabled(s, a) && (a.Truncate? || a.Write?)
    ensures Inv(Apply(s, a))
  {
    var u := Apply(s, a);
    assert Written(s, a.p);
    if a.Write? && a.n == |Text(a.p)| {
      assert "" + Text(a.p)[..a.n] == Text(a.p);
    }
    forall q | q in u.procs ensures Written(u, q) {
      assert Written(s, q);
    }
  }

  /** Whoever removes the name holds the lock of the very inode it names. */
  lemma RemoveKeepsInv(s: State, a: Action)
    requires Inv(s) && Enabled(s, a) && (a.Check? || a.Remove?)
    ensures Inv(Apply(s, a))
  {
  }

  lemma LockKeepsInv(s: State, a: Action)
    requires Inv(s) && Enabled(s, a) && (a.Spawn? || a.Lock? || a.Close?)
    ensures Inv(Apply(s, a))
  {
    var u := Apply(s, a);
    forall q | q in u.procs ensures Written(u, q) {
      if q in s.procs {
        assert Written(s, q);
      }
    }
  }

  lemma InvIsInductive(s: State, a: Action)
    requires Inv(s) && Enabled(s, a)
    ensures Inv(Apply(s, a))
  {
    match a {
      case Open(p, i) => OpenKeepsInv(s, p, i);
      case Truncate(_) | Write(_, _) => EditKeepsInv(s, a);
      case Check(_, _) | Remove(_, _) => RemoveKeepsInv(s, a);
      case _ => LockKeepsInv(s, a);
    }
  }

  lemma {:induction false} RunKeepsInv(s: State, run: seq<Action>)
    requires Inv(s) && Play(s, run).Some?
    ensures Inv(Play(s, run).value)
  {
    if run != [] {
      RunKeepsInv(s, run[..|run| - 1]);
      InvIsInductive(Play(s, run[..|run| - 1]).value, run[|run| - 1]);
    }
  }

  ghost predicate Reachable(s: State) {
    exists s0, run :: Initial(s0) && Play(s0, run) == Some(s)
  }

  lemma ReachableInv(s: State)
    requires Reachable(s)
    ensures Inv(s)
  {
    var s0, run :| Initial(s0) && Play(s0, run) == Some(s);
    RunKeepsInv(s0, run);
  }

  // ---- What holds for any number of processes and crashes ----

  /** No two processes hold the lock of one file, and whenever the name goes
      away, the process that removed it holds the lock of the file it named:
      a cleanup removes its own file or nothing. */
  lemma OnlyTheOwnerRemoves(s: State, a: Action)
    requires Reachable(s) && Enabled(s, a) && s.path.Some? && Apply(s, a).path != s.path
    ensures a.Remove? && s.procs[a.p].ino == s.path.value
    ensures s.path.value in s.locks && s.locks[s.path.value] == a.p
    ensures s.path.value in s.files && s.files[s.path.value] == Text(a.p)
    ensures forall q | q in s.procs && Holds(s.procs[q].phase) && s.procs[q].ino == s.path.value :: q == a.p
  {
    ReachableInv(s);
    assert Written(s, a.p);
  }

  /** The first line of a file as a buffered reader returns it: an empty file
      is an error, and so is a line that fills the 4096-byte buffer. */
  function ReadLine(content: string): Option<string> {
    if content == "" then None
    else
      var n := LineLength(content);
      if n >= 4096 then None
      else Some(if n < |content| && n > 0 && content[n - 1] == '\r' then content[..n - 1] else content[..n])
  }

  function LineLength(content: string): (n: nat)
    ensures n <= |content| && (n < |content| ==> content[n] == '\n')
    ensures forall i | 0 <= i < n :: content[i] != '\n'
  {
    if content == "" || content[0] == '\n' then 0 else 1 + LineLength(content[1..])
  }

  /** `raw` is what comes before the first line feed, or all there is. */
  ghost predicate Leading(content: string, raw: string, fed: bool) {
    && '\n' !in raw && |raw| < 4096
    && if fed then exists rest :: content == raw + "\n" + rest else content == raw != ""
  }

  /** The line that is read is what leads, without a carriage return right before
      the line feed. */
  lemma ReadLineIff(content: string, line: string)
    ensures ReadLine(content) == Some(line) <==>
              || Leading(content, line, false)
              || (Leading(content, line, true) && !(line != "" && line[|line| - 1] == '\r'))
              || Leading(content, line + "\r", true)
  {
    var n := LineLength(content);
    if n < |content| {
      assert content == content[..n] + "\n" + content[n + 1..];
      assert n < 4096 ==> Leading(content, content[..n], true);
      if n > 0 && content[n - 1] == '\r' { assert content[..n] == content[..n - 1] + "\r"; }
    } else if content != "" {
      assert content[..n] == content;
    }
    forall raw, fed | Leading(content, raw, fed) ensures raw == content[..n] && (fed <==> n < |content|) {
      LeadingIsFirst(content, raw, fed);
    }
    if Leading(content, line + "\r", true) { assert (line + "\r")[|line|] == '\r' && (line + "\r")[..|line|] == line; }
  }

  lemma LeadingIsFirst(content: string, raw: string, fed: bool)
    requires Leading(content, raw, fed)
    ensures LineLength(content) == |raw| && raw == content[..|raw|] && (fed <==> |raw| < |content|)
  {
    var n := LineLength(content);
    if fed {
      var rest :| content == raw + "\n" + rest;
      assert content[|raw|] == '\n';
    }
    assert forall i | 0 <= i < |raw| :: raw[i] in raw && content[i] == raw[i] != '\n';
    assert n >= |raw|;
  }

  function ReadPidFile(s: State): Option<int> {
    if s.path.None? || s.path.value !in s.files then None
    else
      var line := ReadLine(s.files[s.path.value]);
      if line.None? then None else Some(Strconv.Parse(line.value))
  }

  lemma {:induction false} LineEndsAtFeed(d: string)
    requires forall i | 0 <= i < |d| :: d[i] != '\n'
    ensures LineLength(d + "\n") == |d|
  {
    if d != "" {
      assert (d + "\n")[1..] == d[1..] + "\n";
      LineEndsAtFeed(d[1..]);
    }
  }

  lemma ReadText(p: Pid)
    requires p < Strconv.LIMIT
    ensures ReadLine(Text(p)) == Some(Strconv.Dec(p))
  {
    var d := Strconv.Dec(p);
    assert Strconv.Power(19) == 10_000_000_000_000_000_000 by {
      assert Strconv.Power(10) == 10_000_000_000;
    }
    Strconv.DecLength(p, 19);
    LineEndsAtFeed(d);
    assert Text(p)[..|d|] == d;
  }

  /** At most one running instance owns the file the name leads to, and then
      reading the pid file gives exactly that instance's pid. */
  lemma OneInstanceIsPublished(s: State, p: Pid)
    requires Reachable(s) && In(s, p, Running) && s.path == Some(s.procs[p].ino)
    ensures forall q | In(s, q, Running) && s.path == Some(s.procs[q].ino) :: q == p
    ensures p < Strconv.LIMIT ==> ReadPidFile(s) == Some(p)
  {
    ReachableInv(s);
    assert Written(s, p);
    if p < Strconv.LIMIT {
      ReadText(p);
      Strconv.ParseDec(p);
    }
  }

  lemma PlayMore(s: State, run: seq<Action>, u: State, a: Action)
    requires Play(s, run) == Some(u) && Enabled(u, a)
    ensures Play(s, run + [a]) == Some(Apply(u, a))
  {
    assert (run + [a])[..|run|] == run;
  }

  lemma CleanedUp(s: State, p: Pid, i: Inode, a: State, b: State)
    requires p in s.procs && s.procs[p] == Proc(Running, i) && s.path == Some(i) && i in s.locks && s.locks[i] == p
    requires a == At(s, p, Matched) && b == At(a, p, Closing).(path := None)
    ensures Apply(s, Check(p, false)) == a && Enabled(a, Remove(p, false)) && Apply(a, Remove(p, false)) == b
    ensures Enabled(b, Close(p))
    ensures Apply(b, Close(p)) == State(None, s.files, s.locks - {i}, s.procs[p := Proc(Ended, i)])
  {
    assert s.procs[p := Proc(Matched, i)][p := Proc(Closing, i)] == s.procs[p := Proc(Closing, i)];
    assert s.procs[p := Proc(Closing, i)][p := Proc(Ended, i)] == s.procs[p := Proc(Ended, i)];
  }

  /** The orderly end of a published instance: its cleanup takes the name away and
      gives up the lock, and nothing else changes. */
  lemma CleanupUnpublishes(s: State, p: Pid)
    requires Reachable(s) && In(s, p, Running) && s.path == Some(s.procs[p].ino)
    ensures Play(s, [Check(p, false)] + [Remove(p, false)] + [Close(p)]) ==
            Some(State(None, s.files, s.locks - {s.procs[p].ino}, s.procs[p := Proc(Ended, s.procs[p].ino)]))
  {
    var i, a := s.procs[p].ino, At(s, p, Matched);
    var b := At(a, p, Closing).(path := None);
    assert i in s.locks && s.locks[i] == p by { ReachableInv(s); }
    CleanedUp(s, p, i, a, b);
    assert [] + [Check(p, false)] == [Check(p, false)] && Play(s, []) == Some(s);
    PlayMore(s, [], s, Check(p, false));
    PlayMore(s, [Check(p, false)], a, Remove(p, false));
    PlayMore(s, [Check(p, false)] + [Remove(p, false)], b, Close(p));
  }

  /** A name that leads elsewhere is left alone by the cleanup. */
  lemma CleanupLeavesOthers(s: State, p: Pid, fails: bool)
    requires In(s, p, Running) && s.path != Some(s.procs[p].ino)
    ensures var u := Play(s, [Check(p, fails)] + [Close(p)]); u.Some? && u.value.path == s.path && In(u.value, p, Ended)
  {
    PlayMore(s, [], s, Check(p, fails));
    assert [] + [Check(p, fails)] == [Check(p, fails)];
    PlayMore(s, [Check(p, fails)], Apply(s, Check(p, fails)), Close(p));
  }

  /** Once published, an instance stays published whatever all others do, until
      its own cleanup or crash. */
  lemma OthersCannotUnpublish(s: State, p: Pid, a: Action)
    requires Reachable(s) && In(s, p, Running) && s.path == Some(s.procs[p].ino)
    requires Enabled(s, a) && a.p != p
    ensures var u := Apply(s, a);
      In(u, p, Running) && u.path == s.path && u.procs[p] == s.procs[p]
      && s.path.value in u.files && u.files[s.path.value] == Text(p)
  {
    ReachableInv(s);
    assert Written(s, p) && (a.p in s.procs ==> Written(s, a.p));
  }

  // ---- Exactly when a second instance can run ----

  /** Every process that is past its lock holds the file the name leads to. */
  ghost predicate Current(s: State) {
    forall p | p in s.procs && Holds(s.procs[p].phase) :: s.path == Some(s.procs[p].ino)
  }

  /** A lock taken on a file that has meanwhile lost its name. */
  predicate IsStaleLock(s: State, a: Action) {
    a.Lock? && a.p in s.procs && s.path != Some(s.procs[a.p].ino)
  }

  /** `u` can be reached from `s` without taking one more stale lock. */
  ghost predicate Leads(s: State, u: State) {
    exists run :: Play(s, run) == Some(u) && Careful(s, run)
  }

  ghost predicate Careful(s: State, run: seq<Action>) {
    forall i | 0 <= i < |run| :: Play(s, run[..i]).Some? && !IsStaleLock(Play(s, run[..i]).value, run[i])
  }

  ghost predicate TwoRunning(s: State) {
    exists p, q :: p != q && In(s, p, Running) && In(s, q, Running)
  }

  lemma LeadsStep(s: State, u: State, a: Action)
    requires Leads(s, u) && Enabled(u, a) && !IsStaleLock(u, a)
    ensures Leads(s, Apply(u, a))
  {
    var run :| Play(s, run) == Some(u) && Careful(s, run);
    var more := run + [a];
    assert more[..|more| - 1] == run;
    forall i | 0 <= i < |more|
      ensures Play(s, more[..i]).Some? && !IsStaleLock(Play(s, more[..i]).value, more[i])
    {
      if i < |run| {
        assert more[..i] == run[..i];
        assert Play(s, run[..i]).Some?;
      }
    }
    assert Play(s, more) == Some(Apply(u, a)) && Careful(s, more);
  }

  lemma CurrentStays(s: State, a: Action)
    requires Inv(s) && Current(s) && Enabled(s, a) && !IsStaleLock(s, a)
    ensures Current(Apply(s, a))
  {
  }

  lemma {:induction false} CarefulRunStaysCurrent(s: State, run: seq<Action>)
    requires Inv(s) && Current(s) && Play(s, run).Some? && Careful(s, run)
    ensures Current(Play(s, run).value)
  {
    if run != [] {
      var front := run[..|run| - 1];
      forall i | 0 <= i < |front|
        ensures Play(s, front[..i]).Some? && !IsStaleLock(Play(s, front[..i]).value, front[i])
      {
        assert front[..i] == run[..i];
        assert Play(s, run[..i]).Some?;
      }
      CarefulRunStaysCurrent(s, front);
      RunKeepsInv(s, front);
      CurrentStays(Play(s, front).value, run[|run| - 1]);
    }
  }

  /** Brings a process that holds a stale lock to running. */
  lemma StaleHolderRuns(s: State, p: Pid) returns (u: State)
    requires Inv(s) && p in s.procs && Holds(s.procs[p].phase) && s.path != Some(s.procs[p].ino)
    ensures Leads(s, u) && Inv(u) && In(u, p, Running) && u.path == s.path && u.path != Some(u.procs[p].ino)
  {
    u := s;
    assert Play(s, []) == Some(s) && Careful(s, []);
    assert Written(s, p);
    if In(u, p, Locked) {
      LeadsStep(s, u, Truncate(p));
      InvIsInductive(u, Truncate(p));
      u := Apply(u, Truncate(p));
    }
    if In(u, p, Emptied) {
      var a := Write(p, |Text(p)|);
      LeadsStep(s, u, a);
      InvIsInductive(u, a);
      u := Apply(u, a);
    }
  }

  /** Frees the lock of the named file, if any; `p` is somewhere else. */
  lemma NameIsUnlocked(s: State, v: State, p: Pid) returns (u: State)
    requires Leads(s, v) && Inv(v) && In(v, p, Running) && v.path != Some(v.procs[p].ino)
    ensures Leads(s, u) && Inv(u) && In(u, p, Running)
    ensures u.path.Some? ==> u.path.value !in u.locks
  {
    u := v;
    if v.path.Some? && v.path.value in v.locks {
      var a := Close(v.locks[v.path.value]);
      LeadsStep(s, v, a);
      InvIsInductive(v, a);
      u := Apply(v, a);
    }
  }

  /** A newcomer opens the named file, or creates it. */
  lemma NewcomerOpens(s: State, v: State, q: Pid, i: Inode) returns (u: State)
    requires Leads(s, v) && Inv(v) && q !in v.procs && (v.path.Some? ==> v.path.value !in v.locks)
    requires forall p | p in v.procs :: v.procs[p].ino != i
    ensures Leads(s, u) && Inv(u) && In(u, q, Opened) && u.path == Some(u.procs[q].ino)
    ensures u.procs[q].ino !in u.locks
    ensures forall p | p in v.procs :: p in u.procs && u.procs[p] == v.procs[p]
  {
    var w := Apply(v, Spawn(q));
    LeadsStep(s, v, Spawn(q));
    InvIsInductive(v, Spawn(q));
    assert v.path.None? ==> Unused(w, i);
    LeadsStep(s, w, Open(q, i));
    InvIsInductive(w, Open(q, i));
    u := Apply(w, Open(q, i));
  }

  /** A newcomer that finds no name, or an unlocked file, becomes running. */
  lemma NewcomerRuns(s: State, v: State, q: Pid) returns (u: State)
    requires Leads(s, v) && Inv(v) && q !in v.procs && (v.path.Some? ==> v.path.value !in v.locks)
    ensures Leads(s, u) && In(u, q, Running)
    ensures forall p | p in v.procs :: p in u.procs && u.procs[p] == v.procs[p]
  {
    var inodes := set p | p in v.procs :: v.procs[p].ino;
    var i := Sequences.FreshNumber(inodes);
    assert forall p | p in v.procs :: v.procs[p].ino in inodes;
    var w := NewcomerOpens(s, v, q, i);
    u := LockedNewcomerRuns(s, w, q);
  }

  lemma LockedNewcomerRuns(s: State, w: State, q: Pid) returns (u: State)
    requires Leads(s, w) && In(w, q, Opened) && w.path == Some(w.procs[q].ino)
    requires w.procs[q].ino !in w.locks && w.procs[q].ino in w.files
    ensures Leads(s, u) && In(u, q, Running)
    ensures forall p | p in w.procs && p != q :: p in u.procs && u.procs[p] == w.procs[p]
  {
    LeadsStep(s, w, Lock(q));
    u := Apply(w, Lock(q));
    LeadsStep(s, u, Truncate(q));
    u := Apply(u, Truncate(q));
    LeadsStep(s, u, Write(q, |Text(q)|));
    u := Apply(u, Write(q, |Text(q)|));
  }

  lemma CurrentIsSingle(s: State, u: State)
    requires Inv(s) && Current(s) && Leads(s, u)
    ensures !TwoRunning(u)
  {
    var run :| Play(s, run) == Some(u) && Careful(s, run);
    CarefulRunStaysCurrent(s, run);
    RunKeepsInv(s, run);
  }

  lemma StaleLeadsToTwo(s: State, p: Pid) returns (u: State)
    requires Inv(s) && p in s.procs && Holds(s.procs[p].phase) && s.path != Some(s.procs[p].ino)
    ensures Leads(s, u) && TwoRunning(u)
  {
    var u1 := StaleHolderRuns(s, p);
    var u2 := NameIsUnlocked(s, u1, p);
    var q := Sequences.FreshNumber(u2.procs.Keys);
    u := NewcomerRuns(s, u2, q);
    assert In(u, p, Running) && In(u, q, Running);
  }

  /** From here on, two instances can come to run at once, without a further
      stale lock, if and only if some process already holds one: the lock
      alone does not give a single instance, but comparing the locked file
      with the name after locking would. */
  lemma SecondInstanceIff(s: State)
    requires Reachable(s)
    ensures (exists u :: Leads(s, u) && TwoRunning(u)) <==> !Current(s)
  {
    ReachableInv(s);
    if Current(s) {
      forall u | Leads(s, u) ensures !TwoRunning(u) {
        CurrentIsSingle(s, u);
      }
    } else {
      var p :| p in s.procs && Holds(s.procs[p].phase) && s.path != Some(s.procs[p].ino);
      var u := StaleLeadsToTwo(s, p);
    }
  }

  /** A run in which every lock is taken on
      the named file never has two running instances. */
  lemma CarefulRunsAreSingle(s0: State, run: seq<Action>)
    requires Initial(s0) && Play(s0, run).Some? && Careful(s0, run)
    ensures !TwoRunning(Play(s0, run).value)
  {
    CarefulRunStaysCurrent(s0, run);
    RunKeepsInv(s0, run);
  }

  lemma ReachableStep(s: State, a: Action)
    requires Reachable(s) && Enabled(s, a)
    ensures Reachable(Apply(s, a))
  {
    var s0, run :| Initial(s0) && Play(s0, run) == Some(s);
    assert (run + [a])[..|run|] == run;
    assert Play(s0, run + [a]) == Some(Apply(s, a));
  }

  lemma OneLocks() returns (s: State)
    ensures Reachable(s) && s.path == Some(7) && s.locks == map[7 := 1]
    ensures s.procs == map[1 := Proc(Locked, 7)] && 7 in s.files
  {
    s := State(None, map[], map[], map[]);
    assert Play(s, []) == Some(s);
    ReachableStep(s, Spawn(1));
    s := Apply(s, Spawn(1));
    ReachableStep(s, Open(1, 7));
    s := Apply(s, Open(1, 7));
    ReachableStep(s, Lock(1));
    s := Apply(s, Lock(1));
  }

  lemma LockedRuns(s: State, p: Pid) returns (u: State)
    requires Reachable(s) && p in s.procs && s.procs[p].phase.Locked? && s.procs[p].ino in s.files
    ensures Reachable(u) && u.path == s.path && u.locks == s.locks && u.files.Keys == s.files.Keys
    ensures u.procs == s.procs[p := Proc(Running, s.procs[p].ino)]
  {
    ReachableStep(s, Truncate(p));
    u := Apply(s, Truncate(p));
    ReachableStep(u, Write(p, |Text(p)|));
    u := Apply(u, Write(p, |Text(p)|));
  }

  lemma OneRuns() returns (s: State)
    ensures Reachable(s) && s.path == Some(7) && s.locks == map[7 := 1]
    ensures s.procs == map[1 := Proc(Running, 7)] && 7 in s.files
  {
    s := OneLocks();
    s := LockedRuns(s, 1);
  }

  lemma TwoOpenOneFile() returns (s: State)
    ensures Reachable(s) && s.path == Some(7) && s.locks == map[7 := 1]
    ensures s.procs == map[1 := Proc(Running, 7), 2 := Proc(Opened, 7)] && 7 in s.files
  {
    s := OneRuns();
    ReachableStep(s, Spawn(2));
    s := Apply(s, Spawn(2));
    ReachableStep(s, Open(2, 0));
    s := Apply(s, Open(2, 0));
  }

  /** Stale locks do happen: a process that opened the file before the owner's
      cleanup locks it after the removal. Together with `SecondInstanceIff`,
      two instances can run at once. */
  lemma StaleLocksHappen() returns (s: State)
    ensures Reachable(s) && !Current(s)
  {
    s := TwoOpenOneFile();
    ReachableStep(s, Check(1, false));
    s := Apply(s, Check(1, false));
    ReachableStep(s, Remove(1, false));
    s := Apply(s, Remove(1, false));
    ReachableStep(s, Close(1));
    s := Apply(s, Close(1));
    ReachableStep(s, Lock(2));
    s := Apply(s, Lock(2));
    assert In(s, 2, Locked);
  }
}
