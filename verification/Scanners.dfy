/** The two scanners: reading `find -ls` lines, and walking in-process; both
    drop ignored names and emit paths relative to the root. */
module Scanners {
  import opened Lexical
  import opened Tree
  import opened Sequences
  import FileMode
  import F = FindLine
  import opened Regex

  // ---- Paths below the root ----

  function JoinPath(p: Path): string {
    if p == [] then "" else if |p| == 1 then p[0] else p[0] + "/" + JoinPath(p[1..])
  }

  predicate Names(p: Path) {
    forall i | 0 <= i < |p| :: IsComponent(p[i])
  }

  /** Splitting undoes joining. */
  lemma {:induction false} SplitJoin(p: Path)
    requires Names(p)
    ensures Components(JoinPath(p)) == p
  {
    if p != [] {
      var name := p[0];
      assert IsComponent(name) && "" + name == name;
      if |p| == 1 {
        assert name + "" == name;
        NameEnds(name, "", "");
      } else {
        var more := JoinPath(p[1..]);
        assert Names(p[1..]);
        SplitJoin(p[1..]);
        assert JoinPath(p) == name + ("/" + more) && ("/" + more)[1..] == more;
        NameEnds(name, "/" + more, "");
        assert [name] + p[1..] == p;
      }
    }
  }

  /** The scan is given a root that ends in a separator. */
  predicate IsRoot(root: string) {
    root != "" && root[|root| - 1] == '/'
  }

  lemma {:induction false} SplitAfterRoot(root: string, rest: string, part: string)
    requires IsRoot(root)
    ensures SplitFrom(root + rest, part) == SplitFrom(root, part) + SplitFrom(rest, "")
    decreases |root|
  {
    assert root + rest == [root[0]] + (root[1..] + rest) && (root + rest)[1..] == root[1..] + rest;
    if |root| == 1 {
      assert root[1..] == "" && root[1..] + rest == rest && SplitFrom("", "") == [];
      var here := if part == "" then [] else [part];
      assert here + [] == here;
    } else {
      assert IsRoot(root[1..]) by { assert root[1..][|root| - 2] == root[|root| - 1]; }
      if root[0] == '/' {
        SplitAfterRoot(root[1..], rest, "");
      } else {
        SplitAfterRoot(root[1..], rest, part + [root[0]]);
      }
    }
  }

  /** A path printed below the root is read back as its components. */
  lemma RelReadsBack(root: string, p: Path)
    requires IsRoot(root) && Names(p)
    ensures Rel(root, root + JoinPath(p)) == Some(p)
  {
    SplitJoin(p);
    SplitAfterRoot(root, JoinPath(p), "");
    assert Plain(p) by { assert forall i | 0 <= i < |p| :: IsComponent(p[i]); }
    PlainIsCleaned(Components(root), p);
    assert Rooted(root + JoinPath(p)) == Rooted(root);
    SharedFront(Cleaned(root), p);
    if p == [] {
      assert Cleaned(root) + [] == Cleaned(root);
    }
    assert Ups(0) + p == p;
  }

  lemma {:induction false} SharedFront(a: Path, b: Path)
    ensures Shared(a, a + b) == |a| && (a + b)[|a|..] == b
    ensures a == a + b <==> b == []
  {
    if a != [] {
      SharedFront(a[1..], b);
      assert (a + b)[1..] == a[1..] + b;
    }
  }

  // ---- Ignored names ----

  const IGNORED_DIRS: set<string> :=
    {"..", ".snapshot", ".dropbox", ".com.apple.timemachine.donotpresent", ".DocumentRevisions-V100", ".fseventsd",
     ".Spotlight-V100", ".TemporaryItems", "._Temporary Items", "Temporary Items", ".Trashes", ".Trash",
     "Network Trash Folder", ".AppleDB", ".AppleDouble", ".AppleDesktop", "$RECYCLE.BIN"}

  const IGNORED_FILES: set<string> :=
    {".", "..", ".dropbox.attr", ".dropbox.cache", ".DS_Store", ".LSOverride", "Icon\r", "Icon\r\r",
     ".VolumeIcon.icns", ".apdisk", "Thumbs.db", "Thumbs.db:encryptable", "ehthumbs.db", "ehthumbs_vista.db",
     "desktop.ini", "Desktop.ini"}

  function Base(p: Path): string {
    if p == [] then "." else p[|p| - 1]
  }

  function DirName(p: Path): Path {
    if p == [] then [] else p[..|p| - 1]
  }

  predicate Ignored(p: Path, isDir: bool) {
    if isDir then Base(p) in IGNORED_DIRS
    else Base(p) in IGNORED_FILES || Base(DirName(p)) in IGNORED_DIRS
  }

  // ---- Reading lines ----

  datatype Row = Row(path: Path, target: string, mode: FileMode.Mode, size: int)

  /** What one line gives: a row, nothing, or a panic that ends the scan. */
  datatype Outcome = Emit(row: Row) | Skip | Panic

  function ReadParsed(root: string, parsed: F.Parsed): Outcome {
    match parsed
    case Invalid => Skip
    case Panics => Panic
    case Entry(e) =>
      var rel := Rel(root, e.path);
      if rel.None? || Ignored(rel.value, FileMode.DIR in e.mode) then Skip
      else Emit(Row(rel.value, e.symlinkPath, e.mode, e.size))
  }

  function ReadLine(root: string, line: string): Outcome {
    if line == "" then Skip else ReadParsed(root, F.ParseFindEntry(line))
  }

  /** The rows of the lines up to the first that panics, and whether one does. */
  datatype Reading = Reading(rows: seq<Row>, panicked: bool)

  function Collect(outs: seq<Outcome>): Reading {
    if outs == [] then Reading([], false)
    else
      var before := Collect(outs[..|outs| - 1]);
      if before.panicked then before
      else
        match outs[|outs| - 1]
        case Emit(row) => Reading(before.rows + [row], false)
        case Skip => before
        case Panic => Reading(before.rows, true)
  }

  function Outcomes(root: string, lines: seq<string>): (outs: seq<Outcome>)
    ensures |outs| == |lines| && forall i | 0 <= i < |lines| :: outs[i] == ReadLine(root, lines[i])
  {
    seq(|lines|, i requires 0 <= i < |lines| => ReadLine(root, lines[i]))
  }

  function ReadLines(root: string, lines: seq<string>): Reading {
    Collect(Outcomes(root, lines))
  }

  lemma CollectOneMore(outs: seq<Outcome>, i: nat)
    requires i < |outs| && !Collect(outs[..i]).panicked
    ensures var before := Collect(outs[..i]).rows;
      Collect(outs[..i + 1]) == if outs[i].Emit? then Reading(before + [outs[i].row], false)
                                else Reading(before, outs[i].Panic?)
  {
    assert outs[..i + 1][..i] == outs[..i];
  }

  lemma {:induction false} CollectPrefix(outs: seq<Outcome>, i: nat)
    requires i <= |outs|
    ensures Collect(outs[..i]).rows <= Collect(outs).rows
    ensures Collect(outs[..i]).panicked ==> Collect(outs) == Collect(outs[..i])
  {
    if i < |outs| {
      var front := outs[..|outs| - 1];
      CollectPrefix(front, i);
      assert front[..i] == outs[..i];
    } else {
      assert outs[..i] == outs;
    }
  }

  /** Line `i` gives the row, and no line before it ends the scan. */
  predicate Emitted(outs: seq<Outcome>, i: nat, row: Row) {
    i < |outs| && outs[i] == Emit(row) && forall j | 0 <= j < i :: !outs[j].Panic?
  }

  /** The scan panics exactly when some line makes it, and gives the rows of the
      lines before that; a line that gives none does not end it. */
  lemma {:induction false} CollectIff(outs: seq<Outcome>, row: Row)
    ensures Collect(outs).panicked <==> exists i: nat :: i < |outs| && outs[i].Panic?
    ensures row in Collect(outs).rows <==> exists i: nat :: Emitted(outs, i, row)
  {
    if outs != [] {
      var k := |outs| - 1;
      CollectIff(outs[..k], row);
      if i: nat :| i < k && outs[..k][i].Panic? { assert outs[i].Panic?; }
      if i: nat :| i < k && outs[i].Panic? { assert outs[..k][i].Panic?; }
      if i: nat :| Emitted(outs, i, row) && i < k { assert Emitted(outs[..k], i, row); }
      if i: nat :| Emitted(outs[..k], i, row) { assert Emitted(outs, i, row); }
      if outs[k] == Emit(row) && !Collect(outs[..k]).panicked { assert Emitted(outs, k, row); }
    }
  }

  /** What one more outcome adds to what was sent. */
  lemma CollectNext(outs: seq<Outcome>, i: nat, sent: seq<Row>)
    requires i < |outs| && Collect(outs[..i]) == Reading(sent, false)
    ensures match outs[i]
            case Emit(row) =>
              Collect(outs[..i + 1]) == Reading(sent + [row], false) && sent + [row] <= Collect(outs).rows
            case Skip => Collect(outs[..i + 1]) == Reading(sent, false)
            case Panic => Collect(outs) == Reading(sent, true)
  {
    CollectOneMore(outs, i);
    CollectPrefix(outs, i + 1);
  }

  /** When a row cannot be sent any more, the first `room` rows have been. */
  lemma NoMoreRoom(all: seq<Row>, sent: seq<Row>, row: Row)
    requires sent + [row] <= all
    ensures sent == Take(all, |sent|) && |all| > |sent|
  {
  }

  method NextOutcome(root: string, lines: seq<string>, i: nat) returns (entry: Outcome)
    requires i < |lines|
    ensures entry == Outcomes(root, lines)[i]
  {
    entry := ReadLine(root, lines[i]);
  }

  /** Sends succeed until the context is cancelled, after `room` of them; what
      was sent before a panic stays sent. */
  method HandleFindStdout(root: string, lines: seq<string>, room: nat) returns (sent: seq<Row>, panicked: bool)
    ensures sent == Take(ReadLines(root, lines).rows, room)
    ensures panicked <==> ReadLines(root, lines).panicked && |ReadLines(root, lines).rows| <= room
  {
    sent, panicked := [], false;
    ghost var outs := Outcomes(root, lines);
    ghost var all := Collect(outs);
    assert Collect(outs[..0]) == Reading([], false);
    for i := 0 to |lines|
      invariant !panicked && |sent| <= room
      invariant Collect(outs[..i]) == Reading(sent, false)
    {
      CollectNext(outs, i, sent);
      var entry := NextOutcome(root, lines, i);
      if entry.Skip? {
        continue;
      }
      if entry.Panic? {
        return sent, true;
      }
      if |sent| == room {
        NoMoreRoom(all.rows, sent, entry.row);
        return sent, false;
      }
      sent := sent + [entry.row];
    }
    assert outs[..|lines|] == outs;
  }

  // ---- Walking in-process ----

  /** What the walker meets: a file it can inspect, or an error it records. */
  datatype Visit = Found(node: Found) | Failed

  datatype Found = File(path: Path, kind: FileMode.Kind, bits: set<nat>, size: nat, target: string, readable: bool)

  /** `os.FileMode` keeps the special bits at their own positions. */
  function ModeOf(k: FileMode.Kind, bits: set<nat>): FileMode.Mode {
    FileMode.TypeOf(k) + FileMode.Perm(bits) + (if 11 in bits then {FileMode.SETUID} else {})
    + (if 10 in bits then {FileMode.SETGID} else {}) + (if 9 in bits then {FileMode.STICKY} else {})
  }

  /** A link whose text cannot be read is an error, not a row. */
  function Walked(v: Visit): Option<Row> {
    if v.Failed? || Ignored(v.node.path, FileMode.DIR in ModeOf(v.node.kind, v.node.bits)) then None
    else if v.node.kind.Symlink? && !v.node.readable then None
    else Some(Row(v.node.path, v.node.target, ModeOf(v.node.kind, v.node.bits), v.node.size))
  }

  function Gather(walks: seq<Option<Row>>): seq<Row> {
    if walks == [] then []
    else Gather(walks[..|walks| - 1]) + if walks[|walks| - 1].Some? then [walks[|walks| - 1].value] else []
  }

  function WalkedAll(visits: seq<Visit>): (walks: seq<Option<Row>>)
    ensures |walks| == |visits| && forall i | 0 <= i < |visits| :: walks[i] == Walked(visits[i])
  {
    seq(|visits|, i requires 0 <= i < |visits| => Walked(visits[i]))
  }

  function WalkRows(visits: seq<Visit>): seq<Row> {
    Gather(WalkedAll(visits))
  }

  predicate Fails(v: Visit) {
    v.Failed? || (!Ignored(v.node.path, FileMode.DIR in ModeOf(v.node.kind, v.node.bits)) && Walked(v).None?)
  }

  function Failures(visits: seq<Visit>): nat {
    if visits == [] then 0 else Failures(visits[..|visits| - 1]) + Bit(Fails(visits[|visits| - 1]))
  }

  /** A visit is counted as an error exactly if it failed, or met a link that is
      not ignored and cannot be read; and gives a row, that of its file, exactly if
      it did neither and the name is not ignored. */
  lemma VisitsEndIff(v: Visit)
    ensures Fails(v) <==>
            v.Failed? || (!Ignored(v.node.path, v.node.kind.Directory?) && v.node.kind.Symlink? && !v.node.readable)
    ensures Walked(v).Some? <==>
            && v.Found? && !Ignored(v.node.path, v.node.kind.Directory?)
            && (v.node.kind.Symlink? ==> v.node.readable)
    ensures Walked(v).Some? ==>
              Walked(v).value == Row(v.node.path, v.node.target, ModeOf(v.node.kind, v.node.bits), v.node.size)
  {
    if v.Found? {
      assert FileMode.DIR in ModeOf(v.node.kind, v.node.bits) <==> v.node.kind.Directory?;
    }
  }

  lemma {:induction false} GatherPrefix(walks: seq<Option<Row>>, i: nat)
    requires i <= |walks|
    ensures Gather(walks[..i]) <= Gather(walks)
  {
    if i < |walks| {
      var front := walks[..|walks| - 1];
      GatherPrefix(front, i);
      assert front[..i] == walks[..i];
    } else {
      assert walks[..i] == walks;
    }
  }

  lemma WalkPrefix(visits: seq<Visit>, i: nat)
    requires i <= |visits|
    ensures WalkRows(visits[..i]) <= WalkRows(visits)
  {
    GatherPrefix(WalkedAll(visits), i);
    assert WalkedAll(visits)[..i] == WalkedAll(visits[..i]);
  }

  lemma WalkOneMore(visits: seq<Visit>, i: nat)
    requires i < |visits|
    ensures WalkRows(visits[..i + 1]) ==
            WalkRows(visits[..i]) + var r := Walked(visits[i]); if r.Some? then [r.value] else []
    ensures Failures(visits[..i + 1]) == Failures(visits[..i]) + Bit(Fails(visits[i]))
  {
    assert visits[..i + 1][..i] == visits[..i];
    assert WalkedAll(visits[..i + 1])[..i] == WalkedAll(visits[..i]);
  }

  /** The walk's callback; it records an error and goes on. After `room` rows
      the context is cancelled, and the next row to be sent ends the walk;
      `met` visits have come to their end by then. */
  method ScanDirectory(visits: seq<Visit>, room: nat) returns (sent: seq<Row>, errs: nat, met: nat)
    ensures sent == Take(WalkRows(visits), room)
    ensures met <= |visits| && sent == WalkRows(visits[..met]) && errs == Failures(visits[..met])
    ensures met < |visits| ==> |sent| == room && Walked(visits[met]).Some?
  {
    sent, errs, met := [], 0, 0;
    while met < |visits|
      invariant met <= |visits| && |sent| <= room
      invariant sent == WalkRows(visits[..met]) && errs == Failures(visits[..met])
    {
      WalkOneMore(visits, met);
      WalkPrefix(visits, met + 1);
      if visits[met].Failed? {
        errs, met := errs + 1, met + 1;
        continue;
      }
      var file := visits[met].node;
      var mode := ModeOf(file.kind, file.bits);
      if Ignored(file.path, FileMode.DIR in mode) {
        met := met + 1;
        continue;
      }
      if file.kind.Symlink? && !file.readable {
        errs, met := errs + 1, met + 1;
        continue;
      }
      if |sent| == room {
        return;
      }
      sent, met := sent + [Row(file.path, file.target, mode, file.size)], met + 1;
    }
    assert visits[..|visits|] == visits;
  }

  // ---- What dropping names does to the tree ----

  predicate Kept(f: Found) {
    !Ignored(f.path, f.kind.Directory?)
  }

  ghost predicate HasDirectory(files: seq<Found>, p: Path) {
    exists j :: 0 <= j < |files| && files[j].path == p && files[j].kind.Directory?
  }

  ghost predicate HasKept(files: seq<Found>, p: Path) {
    exists j :: 0 <= j < |files| && files[j].path == p && Kept(files[j])
  }

  /** A directory that is kept although the directory around it is dropped. */
  predicate Stranded(f: Found) {
    f.kind.Directory? && Kept(f) && f.path != [] && Base(DirName(f.path)) in IGNORED_DIRS
  }

  /** The kept files of a tree are again a tree, every parent kept with its
      children, if and only if no directory is kept inside a dropped one: the
      filter looks at one level, while the walk goes on below. */
  lemma KeptIsTreeIff(files: seq<Found>)
    requires forall i | 0 <= i < |files| && files[i].path != [] :: HasDirectory(files, DirName(files[i].path))
    requires forall i, j | 0 <= i < j < |files| :: files[i].path != files[j].path
    ensures (forall i | 0 <= i < |files| && Kept(files[i]) && files[i].path != [] ::
               HasKept(files, DirName(files[i].path)))
       <==> (forall i | 0 <= i < |files| :: !Stranded(files[i]))
  {
  }

  function Directory(path: Path): Found {
    Found.File(path, FileMode.Directory, {}, 0, "", true)
  }

  /** The trash of a user is such a directory, so the filter does strand. */
  lemma TrashIsStranded(files: seq<Found>)
    requires files == [Directory([]), Directory([".Trash"]), Directory([".Trash", "1000"])]
    ensures forall i | 0 <= i < |files| && files[i].path != [] :: HasDirectory(files, DirName(files[i].path))
    ensures forall i, j | 0 <= i < j < |files| :: files[i].path != files[j].path
    ensures Stranded(files[2]) && Kept(files[2]) && !HasKept(files, DirName(files[2].path))
  {
    assert files[0].path == [] && files[1].path == [".Trash"] && files[2].path == [".Trash", "1000"];
    assert DirName(files[1].path) == files[0].path && DirName(files[2].path) == files[1].path;
  }

  // ---- Agreement ----

  /** A file below the root, as its line shows it. */
  function Shown(root: string, f: Found): F.Node {
    F.Node(f.kind, f.bits, f.size, root + JoinPath(f.path), f.target)
  }

  /** A link whose last arrow is not the printed one. */
  predicate Unclear(f: Found) {
    f.kind.Symlink? && F.Ambiguous(f.target)
  }

  predicate Printable(root: string, f: Found) {
    IsRoot(root) && Names(f.path) && F.ValidNode(Shown(root, f)) && f.readable
  }

  predicate SameEntry(a: Row, b: Row) {
    && a.path == b.path && a.target == b.target && a.size == b.size
    && FileMode.Type(a.mode) == FileMode.Type(b.mode) && FileMode.Perm(a.mode) == FileMode.Perm(b.mode)
  }

  lemma ModesAgree(k: FileMode.Kind, bits: set<nat>)
    requires bits <= FileMode.Twelve() && !k.Block? && !k.Character?
    ensures var a, b := FileMode.TypeOf(k) + bits, ModeOf(k, bits);
      && FileMode.Type(a) == FileMode.Type(b) && FileMode.Perm(a) == FileMode.Perm(b)
      && (FileMode.DIR in a <==> FileMode.DIR in b)
      && (a == b <==> bits == FileMode.Perm(bits))
  {
  }

  /** Both drop the file, or both emit it as the same entry. */
  predicate Agrees(line: Outcome, walked: Option<Row>) {
    !line.Panic? && (line.Emit? <==> walked.Some?) && (line.Emit? ==> SameEntry(line.row, walked.value))
  }

  /** `line` is how `find -ls` prints `f`, whatever it puts into the columns
      that are not read, after the blanks `pad`. */
  ghost predicate PrintedAs(root: string, f: Found, pad: string, line: string) {
    Printable(root, f) && All(pad, BlankClass)
    && exists d :: F.ValidDetails(d) && line == pad + F.Print(d, Shown(root, f))
  }

  /** A line that is not padded comes back as what it shows: the file it was
      printed from, or of an unclear link another path and a shorter target. */
  lemma LineReadsBack(root: string, f: Found, line: string)
    requires PrintedAs(root, f, "", line)
    ensures line != "" && F.ParseFindEntry(line) == F.Entry(F.AsRead(Shown(root, f)))
    ensures !Unclear(f) ==> F.AsRead(Shown(root, f)) == F.Info(Shown(root, f))
    ensures Unclear(f) ==> |F.AsRead(Shown(root, f)).symlinkPath| < |f.target|
    ensures Rel(root, root + JoinPath(f.path)) == Some(f.path)
  {
    var d :| F.ValidDetails(d) && line == "" + F.Print(d, Shown(root, f));
    assert "" + F.Print(d, Shown(root, f)) == F.Print(d, Shown(root, f));
    F.RoundTripIff(d, Shown(root, f));
    F.PaddedLineFails("");
    RelReadsBack(root, f.path);
  }

  lemma PaddedIsSkipped(root: string, f: Found, pad: string, line: string)
    requires PrintedAs(root, f, pad, line) && pad != ""
    ensures ReadLine(root, line).Skip?
  {
    var d :| F.ValidDetails(d) && line == pad + F.Print(d, Shown(root, f));
    F.PaddedLineIff(pad, d, Shown(root, f));
  }

  lemma ReadsAs(root: string, line: string, e: F.Fileinfo)
    requires line != "" && F.ParseFindEntry(line) == F.Entry(e)
    ensures ReadLine(root, line) == ReadParsed(root, F.Entry(e))
  {
  }

  /** A clear file is read as it is walked. */
  lemma ClearAgrees(root: string, f: Found, read: Outcome)
    requires Printable(root, f) && Rel(root, root + JoinPath(f.path)) == Some(f.path)
    requires read == ReadParsed(root, F.Entry(F.Info(Shown(root, f))))
    ensures var walked := Walked(Visit.Found(f));
      && Agrees(read, walked)
      && (read.Emit? ==> (read.row == walked.value <==> f.bits == FileMode.Perm(f.bits)))
  {
    ModesAgree(f.kind, f.bits);
  }

  lemma ClearLineAgrees(root: string, f: Found, line: string)
    requires PrintedAs(root, f, "", line) && !Unclear(f)
    ensures var read := ReadLine(root, line); var walked := Walked(Visit.Found(f));
      && Agrees(read, walked)
      && (read.Emit? ==> (read.row == walked.value <==> f.bits == FileMode.Perm(f.bits)))
  {
    LineReadsBack(root, f, line);
    ReadsAs(root, line, F.Info(Shown(root, f)));
    ClearAgrees(root, f, ReadLine(root, line));
  }

  /** Where the path an unclear link is read as is dropped, too: it does not
      lead anywhere from the root, or its name is ignored. */
  predicate Hidden(root: string, f: Found) {
    var rel := Rel(root, F.AsRead(Shown(root, f)).path);
    rel.None? || Ignored(rel.value, false)
  }

  /** What both scanners make the same of. */
  predicate ReadAlike(root: string, f: Found, pad: string) {
    if Walked(Visit.Found(f)).Some? then pad == "" && !Unclear(f) else pad != "" || !Unclear(f) || Hidden(root, f)
  }

  /** A link with a longer target than its row shows. */
  predicate Torn(r: Row) {
    FileMode.SYMLINK in FileMode.Type(r.mode) && |r.target| < r.size
  }

  lemma LinkIsNoDirectory(f: Found)
    requires f.kind.Symlink? && f.bits <= FileMode.Twelve()
    ensures var m := FileMode.TypeOf(f.kind) + f.bits; FileMode.DIR !in m && FileMode.SYMLINK in FileMode.Type(m)
  {
  }

  /** An unclear link is dropped when read, or becomes a row with too short a
      target. */
  predicate ReadsShort(root: string, f: Found, read: Outcome) {
    && !read.Panic? && (read.Emit? <==> !Hidden(root, f))
    && (read.Emit? ==> |read.row.target| < |f.target| && read.row.size == f.size
                       && FileMode.SYMLINK in FileMode.Type(read.row.mode))
  }

  lemma UnclearReads(root: string, f: Found, read: Outcome)
    requires Unclear(f) && f.bits <= FileMode.Twelve()
    requires read == ReadParsed(root, F.Entry(F.AsRead(Shown(root, f))))
    requires |F.AsRead(Shown(root, f)).symlinkPath| < |f.target|
    ensures ReadsShort(root, f, read)
  {
    LinkIsNoDirectory(f);
  }

  lemma UnclearLineReads(root: string, f: Found, line: string)
    requires PrintedAs(root, f, "", line) && Unclear(f)
    ensures ReadsShort(root, f, ReadLine(root, line))
  {
    LineReadsBack(root, f, line);
    ReadsAs(root, line, F.AsRead(Shown(root, f)));
    UnclearReads(root, f, ReadLine(root, line));
  }

  lemma ShortDisagrees(root: string, f: Found, read: Outcome, walked: Option<Row>)
    requires ReadsShort(root, f, read) && (walked.Some? ==> walked.value.target == f.target)
    ensures Agrees(read, walked) <==> walked.None? && Hidden(root, f)
  {
  }

  lemma WalkedTarget(f: Found)
    ensures Walked(Visit.Found(f)).Some? ==> Walked(Visit.Found(f)).value.target == f.target
  {
  }

  lemma UnclearLineDisagrees(root: string, f: Found, line: string)
    requires PrintedAs(root, f, "", line) && Unclear(f)
    ensures Agrees(ReadLine(root, line), Walked(Visit.Found(f))) <==> ReadAlike(root, f, "")
  {
    UnclearLineReads(root, f, line);
    WalkedTarget(f);
    ShortDisagrees(root, f, ReadLine(root, line), Walked(Visit.Found(f)));
  }

  /** For any printed file, a padded line is dropped. Of the others, a file that
      is kept gives the same path, target, size, type and permission bits in
      both scanners unless it is an unclear link; one that is not kept is dropped
      by both unless it is an unclear link read as a path that is not. */
  lemma LineAgreesIff(root: string, f: Found, pad: string, line: string)
    requires PrintedAs(root, f, pad, line)
    ensures var read := ReadLine(root, line); var walked := Walked(Visit.Found(f));
      && !read.Panic? && (Agrees(read, walked) <==> ReadAlike(root, f, pad))
      && (Agrees(read, walked) && read.Emit? ==> (read.row == walked.value <==> f.bits == FileMode.Perm(f.bits)))
  {
    if pad != "" {
      PaddedIsSkipped(root, f, pad, line);
    } else if Unclear(f) {
      UnclearLineDisagrees(root, f, line);
      UnclearLineReads(root, f, line);
    } else {
      ClearLineAgrees(root, f, line);
    }
  }

  /** A directory is dropped for its own name, any other file for its own or for
      that of the directory it is in; both scanners drop exactly these. */
  lemma BothDropIff(root: string, f: Found, line: string, front: Path, name: Name)
    requires PrintedAs(root, f, "", line) && !Unclear(f) && f.path == front + [name]
    ensures ReadLine(root, line).Skip? <==> Walked(Visit.Found(f)).None?
    ensures f.kind.Directory? ==> (Walked(Visit.Found(f)).None? <==> name in IGNORED_DIRS)
    ensures !f.kind.Directory? ==>
              (Walked(Visit.Found(f)).None? <==>
                 name in IGNORED_FILES || (front != [] && front[|front| - 1] in IGNORED_DIRS))
  {
    ClearLineAgrees(root, f, line);
    DroppedFor(f, front, name);
  }

  lemma DroppedFor(f: Found, front: Path, name: Name)
    requires f.path == front + [name] && f.readable && f.bits <= FileMode.Twelve()
    requires !f.kind.Block? && !f.kind.Character?
    ensures Walked(Visit.Found(f)).None? <==>
              if f.kind.Directory? then name in IGNORED_DIRS
              else name in IGNORED_FILES || (front != [] && front[|front| - 1] in IGNORED_DIRS)
  {
    ModesAgree(f.kind, f.bits);
    assert DirName(f.path) == front && Base(f.path) == name;
    TopIsKept();
  }

  lemma TopIsKept()
    ensures Base([]) !in IGNORED_DIRS
  {
  }

  predicate SameEntries(a: seq<Row>, b: seq<Row>) {
    |a| == |b| && forall i | 0 <= i < |a| :: SameEntry(a[i], b[i])
  }

  /** Where reading never emits what walking drops, the rows are the same
      exactly when all pairs agree. */
  lemma {:induction false} RowsAgreeIff(outs: seq<Outcome>, walks: seq<Option<Row>>)
    requires |outs| == |walks|
    requires forall i | 0 <= i < |outs| :: !outs[i].Panic? && (walks[i].None? ==> outs[i].Skip?)
    ensures !Collect(outs).panicked && |Collect(outs).rows| <= |Gather(walks)|
    ensures SameEntries(Collect(outs).rows, Gather(walks)) <==> forall i | 0 <= i < |outs| :: Agrees(outs[i], walks[i])
  {
    if outs != [] {
      var k := |outs| - 1;
      RowsAgreeIff(outs[..k], walks[..k]);
      LastRow(Collect(outs[..k]).rows, outs[k], Gather(walks[..k]), walks[k]);
    }
  }

  lemma LastRow(rows: seq<Row>, line: Outcome, walks: seq<Row>, walked: Option<Row>)
    requires |rows| <= |walks| && !line.Panic? && (walked.None? ==> line.Skip?)
    ensures var a := rows + (if line.Emit? then [line.row] else []);
      var b := walks + (if walked.Some? then [walked.value] else []);
      && |a| <= |b| && (SameEntries(a, b) <==> SameEntries(rows, walks) && Agrees(line, walked))
  {
    var a := rows + (if line.Emit? then [line.row] else []);
    var b := walks + (if walked.Some? then [walked.value] else []);
    if SameEntries(a, b) {
      assert line.Emit? <==> walked.Some?;
      assert forall i | 0 <= i < |rows| :: rows[i] == a[i] && walks[i] == b[i];
      if line.Emit? { assert a[|rows|] == line.row && b[|rows|] == walked.value; }
    }
  }

  lemma SameIsTorn(a: Row, b: Row)
    requires SameEntry(a, b)
    ensures Torn(a) <==> Torn(b)
  {
  }

  lemma {:induction false} EmittedIsThere(outs: seq<Outcome>, i: nat)
    requires i < |outs| && outs[i].Emit? && forall j | 0 <= j < |outs| :: !outs[j].Panic?
    ensures !Collect(outs).panicked && outs[i].row in Collect(outs).rows
    decreases |outs|
  {
    var k := |outs| - 1;
    NoPanic(outs[..k]);
    if i < k {
      EmittedIsThere(outs[..k], i);
    }
  }

  lemma {:induction false} NoPanic(outs: seq<Outcome>)
    requires forall j | 0 <= j < |outs| :: !outs[j].Panic?
    ensures !Collect(outs).panicked
    decreases |outs|
  {
    if outs != [] { NoPanic(outs[..|outs| - 1]); }
  }

  lemma {:induction false} GatheredIsWalked(walks: seq<Option<Row>>)
    requires forall i | 0 <= i < |walks| && walks[i].Some? :: !Torn(walks[i].value)
    ensures forall r | r in Gather(walks) :: !Torn(r)
    decreases |walks|
  {
    if walks != [] {
      var k := |walks| - 1;
      forall i | 0 <= i < k && walks[..k][i].Some? ensures !Torn(walks[..k][i].value) { assert walks[i].Some?; }
      GatheredIsWalked(walks[..k]);
    }
  }

  /** A torn row is none of those of the walk, so the rows cannot be the same. */
  lemma TornRowDiffers(outs: seq<Outcome>, walks: seq<Option<Row>>, i: nat)
    requires i < |outs| && outs[i].Emit? && Torn(outs[i].row) && forall j | 0 <= j < |outs| :: !outs[j].Panic?
    requires forall j | 0 <= j < |walks| && walks[j].Some? :: !Torn(walks[j].value)
    ensures !Collect(outs).panicked && !SameEntries(Collect(outs).rows, Gather(walks))
  {
    EmittedIsThere(outs, i);
    GatheredIsWalked(walks);
    var a, b := Collect(outs).rows, Gather(walks);
    if SameEntries(a, b) {
      var k :| 0 <= k < |a| && a[k] == outs[i].row;
      assert b[k] in b;
      SameIsTorn(a[k], b[k]);
    }
  }

  /** So the rows are the same exactly when all pairs agree, if a line that is
      read wrongly gives a torn row or none, and no walked row is torn. */
  lemma RowsAgreeUnlessTorn(outs: seq<Outcome>, walks: seq<Option<Row>>)
    requires |outs| == |walks|
    requires forall i | 0 <= i < |outs| ::
               && !outs[i].Panic? && (outs[i].Emit? ==> Torn(outs[i].row) || Agrees(outs[i], walks[i]))
               && (walks[i].Some? ==> !Torn(walks[i].value))
    ensures !Collect(outs).panicked
    ensures SameEntries(Collect(outs).rows, Gather(walks)) <==> forall i | 0 <= i < |outs| :: Agrees(outs[i], walks[i])
  {
    if i :| 0 <= i < |outs| && outs[i].Emit? && Torn(outs[i].row) {
      TornRowDiffers(outs, walks, i);
      if Agrees(outs[i], walks[i]) { SameIsTorn(outs[i].row, walks[i].value); }
    } else {
      RowsAgreeIff(outs, walks);
    }
  }

  /** The size of a link is the length of its target, as `lstat` has it. */
  predicate Sized(f: Found) {
    f.kind.Symlink? ==> f.size == |f.target|
  }

  lemma WalkedIsWhole(root: string, f: Found)
    requires Printable(root, f) && Sized(f)
    ensures Walked(Visit.Found(f)).Some? ==> !Torn(Walked(Visit.Found(f)).value)
  {
    ModesAgree(f.kind, f.bits);
  }

  lemma MisreadIsTorn(root: string, f: Found, pad: string, line: string)
    requires PrintedAs(root, f, pad, line) && Sized(f) && ReadLine(root, line).Emit? && !ReadAlike(root, f, pad)
    ensures Torn(ReadLine(root, line).row)
  {
    if pad != "" {
      PaddedIsSkipped(root, f, pad, line);
      assert false;
    }
    UnclearLineReads(root, f, line);
  }

  /** Over a whole tree, in the order it is walked, both scanners emit the same
      entries if and only if no file that is kept has a padded line or is an
      unclear link, and no unclear link that is not kept, and not padded, is
      read as a path that is kept. */
  lemma ScannersAgreeIff(root: string, files: seq<Found>, pads: seq<string>, lines: seq<string>, visits: seq<Visit>)
    requires |lines| == |files| == |pads| == |visits|
    requires forall i | 0 <= i < |files| ::
               && PrintedAs(root, files[i], pads[i], lines[i]) && Sized(files[i])
               && visits[i] == Visit.Found(files[i])
    ensures var read := ReadLines(root, lines);
      && !read.panicked
      && (SameEntries(read.rows, WalkRows(visits)) <==>
            forall i | 0 <= i < |files| :: ReadAlike(root, files[i], pads[i]))
  {
    forall i | 0 <= i < |lines|
      ensures !ReadLine(root, lines[i]).Panic?
      ensures Agrees(ReadLine(root, lines[i]), Walked(visits[i])) <==> ReadAlike(root, files[i], pads[i])
      ensures ReadLine(root, lines[i]).Emit? && !ReadAlike(root, files[i], pads[i]) ==>
                Torn(ReadLine(root, lines[i]).row)
      ensures Walked(visits[i]).Some? ==> !Torn(Walked(visits[i]).value)
    {
      LineAgreesIff(root, files[i], pads[i], lines[i]);
      WalkedIsWhole(root, files[i]);
      if ReadLine(root, lines[i]).Emit? && !ReadAlike(root, files[i], pads[i]) {
        MisreadIsTorn(root, files[i], pads[i], lines[i]);
      }
    }
    RowsAgreeUnlessTorn(Outcomes(root, lines), WalkedAll(visits));
  }
}
