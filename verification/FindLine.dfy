/** One line of `find -ls`: the parser, and the printer it undoes. */
module FindLine {
  import opened Tree
  import opened Regex
  import FileMode
  import Strconv

  datatype Fileinfo = Fileinfo(path: string, symlinkPath: string, mode: FileMode.Mode, size: int)

  /** A mode column of fewer than ten characters makes the decoder panic. */
  datatype Parsed = Entry(info: Fileinfo) | Invalid | Panics

  function Gap(): Item {
    Rep(BlankClass, 1, false)
  }

  function Lazy(cls: Class): Item {
    Rep(cls, 1, true)
  }

  /** Blank-separated columns, each taken lazily. */
  function Separated(classes: seq<Class>): (f: seq<Item>)
    ensures |f| == 2 * |classes|
  {
    if classes == [] then [] else [Lazy(classes[0]), Gap()] + Separated(classes[1..])
  }

  /** Inode, blocks, mode, links, owner, group, size, month and day. */
  function Layout(): (classes: seq<Class>)
    ensures |classes| == 9
  {
    [DigitClass, DigitClass, SolidClass, DigitClass, AnyClass, AnyClass, DigitClass, LetterClass, DigitClass]
  }

  function FindFormat(): (f: seq<Item>)
    ensures |f| == 22
  {
    Separated(Layout()) + Tail()
  }

  /** The clock or year, and the path. */
  function Tail(): (f: seq<Item>)
    ensures |f| == 4
  {
    [Lazy(DigitClass), Maybe(':', DigitClass), Gap(), Rep(AnyClass, 0, false)]
  }

  function SymlinkFormat(): (f: seq<Item>)
    ensures |f| == 3
  {
    [Rep(AnyClass, 0, false), Lit(" -> "), Rep(AnyClass, 0, false)]
  }

  function ParseFindEntry(line: string): Parsed {
    var matched := Match(FindFormat(), line);
    if matched.None? || |matched.value| != 22 then Invalid
    else if |matched.value[4]| < 10 then Panics
    else Interpret(matched.value[4], matched.value[12], matched.value[21])
  }

  /** The entry read off the mode, size and path columns. */
  function Interpret(columns: string, digits: string, path: string): Parsed
    requires |columns| >= 10
  {
    var mode := FileMode.Decode(columns, 10);
    var size := Strconv.Parse(digits);
    if FileMode.SYMLINK in mode then
      var link := Match(SymlinkFormat(), path);
      if link.None? || |link.value| != 3 then Invalid
      else Entry(Fileinfo(link.value[0], link.value[2], mode, size))
    else Entry(Fileinfo(path, "", mode, size))
  }

  // ---- Columns ----

  /** A field without blanks, and the blanks after it. */
  datatype Column = Column(cls: Class, text: string, gap: string)

  predicate ValidColumn(c: Column) {
    && c.text != "" && All(c.text, c.cls) && All(c.text, SolidClass)
    && c.gap != "" && All(c.gap, BlankClass)
  }

  function Text(cols: seq<Column>): string {
    if cols == [] then "" else cols[0].text + cols[0].gap + Text(cols[1..])
  }

  function Pieces(cols: seq<Column>): (p: seq<string>)
    ensures |p| == 2 * |cols| && forall i | 0 <= i < |cols| :: p[2 * i] == cols[i].text
  {
    if cols == [] then [] else [cols[0].text, cols[0].gap] + Pieces(cols[1..])
  }

  predicate StartsSolid(s: string) {
    s != "" && !IsBlank(s[0])
  }

  /** A gap takes all its blanks, and needs at least one. */
  lemma GapStep(rest: seq<Item>, g: string, t: string, r: seq<string>)
    requires g != "" && All(g, BlankClass) && (t == "" || !IsBlank(t[0])) && Match(rest, t) == Some(r)
    ensures Match([Gap()] + rest, g + t) == Some([g] + r)
  {
    var s := g + t;
    assert ([Gap()] + rest)[1..] == rest && s[|g|..] == t && s[..|g|] == g;
    forall k | |g| < k <= |s| ensures !Possible(BlankClass, rest, s, k) {
      assert s[..k][|g|] == t[0];
    }
    DownPicks(BlankClass, 1, rest, s, |s|, |g|);
  }

  lemma GapNeedsBlank(rest: seq<Item>, s: string)
    requires rest != [] && rest[0] == Gap() && (s == "" || !IsBlank(s[0]))
    ensures Match(rest, s).None?
  {
    DownFails(BlankClass, 1, rest[1..], s, |s|);
  }

  /** A lazy field before a gap extends to the end of the field. */
  lemma FieldStep(cls: Class, rest: seq<Item>, f: string, t: string, r: seq<string>)
    requires f != "" && All(f, cls) && All(f, SolidClass) && rest != [] && rest[0] == Gap() && Match(rest, t) == Some(r)
    ensures Up(cls, rest, f + t, 1) == Some([f] + r)
  {
    var s := f + t;
    assert s[|f|..] == t && s[..|f|] == f;
    forall k | 1 <= k < |f| ensures Match(rest, s[k..]).None? {
      assert s[k..][0] == f[k];
      GapNeedsBlank(rest, s[k..]);
    }
    UpPicks(cls, rest, s, 1, |f|);
  }

  lemma {:induction false} ColumnsMatch(classes: seq<Class>, cols: seq<Column>, tail: seq<Item>, t: string,
                                        r: seq<string>)
    requires |classes| == |cols| && forall i | 0 <= i < |cols| :: ValidColumn(cols[i]) && cols[i].cls == classes[i]
    requires StartsSolid(t) && Match(tail, t) == Some(r)
    ensures StartsSolid(Text(cols) + t)
    ensures Match(Separated(classes) + tail, Text(cols) + t) == Some(Pieces(cols) + r)
  {
    if cols == [] {
      assert Separated(classes) + tail == tail && Text(cols) + t == t && Pieces(cols) + r == r;
    } else {
      var c, more := cols[0], cols[1..];
      ColumnsMatch(classes[1..], more, tail, t, r);
      ColumnStep(c, Separated(classes[1..]) + tail, Text(more) + t, Pieces(more) + r);
      assert Separated(classes) + tail == [Lazy(c.cls)] + ([Gap()] + (Separated(classes[1..]) + tail));
      assert Text(cols) + t == c.text + (c.gap + (Text(more) + t));
      assert Pieces(cols) + r == [c.text] + ([c.gap] + (Pieces(more) + r));
    }
  }

  lemma ColumnStep(c: Column, rest: seq<Item>, later: string, r: seq<string>)
    requires ValidColumn(c) && StartsSolid(later) && Match(rest, later) == Some(r)
    ensures Match([Lazy(c.cls)] + ([Gap()] + rest), c.text + (c.gap + later)) == Some([c.text] + ([c.gap] + r))
  {
    GapStep(rest, c.gap, later, r);
    FieldStep(c.cls, [Gap()] + rest, c.text, c.gap + later, [c.gap] + r);
    assert ([Lazy(c.cls)] + ([Gap()] + rest))[1..] == [Gap()] + rest;
  }

  predicate IsMinute(m: string) {
    m == "" || (m[0] == ':' && |m| >= 2 && All(m[1..], DigitClass))
  }

  lemma MinuteStep(rest: seq<Item>, m: string, t: string, r: seq<string>)
    requires IsMinute(m) && rest != [] && rest[0] == Gap() && t != "" && IsBlank(t[0]) && Match(rest, t) == Some(r)
    ensures Match([Maybe(':', DigitClass)] + rest, m + t) == Some([m] + r)
  {
    assert ([Maybe(':', DigitClass)] + rest)[1..] == rest;
    if m == "" {
      assert m + t == t;
    } else {
      FieldStep(DigitClass, rest, m[1..], t, r);
      assert (m + t)[1..] == m[1..] + t && [':'] + m[1..] == m;
      assert ([m[1..]] + r)[1..] == r;
    }
  }

  /** The clock `h:m`, or a year without the colon part. */
  lemma ClockStep(rest: seq<Item>, h: string, m: string, t: string, r: seq<string>)
    requires h != "" && All(h, DigitClass) && IsMinute(m)
    requires rest != [] && rest[0] == Gap() && t != "" && IsBlank(t[0]) && Match(rest, t) == Some(r)
    ensures Match([Lazy(DigitClass)] + ([Maybe(':', DigitClass)] + rest), h + (m + t)) == Some([h] + ([m] + r))
  {
    var colon := [Maybe(':', DigitClass)] + rest;
    assert ([Lazy(DigitClass)] + colon)[1..] == colon && colon[1..] == rest;
    var s := h + (m + t);
    forall k | 1 <= k < |h| ensures Match(colon, s[k..]).None? {
      assert s[k..][0] == h[k] && In(h[k], DigitClass);
      GapNeedsBlank(rest, s[k..]);
    }
    assert s[|h|..] == m + t && s[..|h|] == h;
    MinuteStep(rest, m, t, r);
    UpPicks(DigitClass, colon, s, 1, |h|);
  }

  lemma PathStep(p: string)
    requires All(p, AnyClass)
    ensures Match([Rep(AnyClass, 0, false)], p) == Some([p])
  {
    var rest := [Rep(AnyClass, 0, false)][1..];
    assert rest == [] && p[|p|..] == "" && p[..|p|] == p;
    assert [p] + [] == [p];
    DownPicks(AnyClass, 0, rest, p, |p|, |p|);
  }

  // ---- The printer ----

  /** What a line shows besides mode, size and path; `gaps` pad the columns. */
  datatype Details = Details(inode: string, blocks: string, links: string, owner: string, group: string,
                             month: string, day: string, hour: string, minute: string, gaps: seq<string>)

  predicate IsField(s: string, cls: Class) {
    s != "" && All(s, cls) && All(s, SolidClass)
  }

  predicate IsGap(s: string) {
    s != "" && All(s, BlankClass)
  }

  predicate ValidDetails(d: Details) {
    && IsField(d.inode, DigitClass) && IsField(d.blocks, DigitClass) && IsField(d.links, DigitClass)
    && IsField(d.owner, AnyClass) && IsField(d.group, AnyClass)
    && IsField(d.month, LetterClass) && IsField(d.day, DigitClass) && IsField(d.hour, DigitClass)
    && IsMinute(d.minute)
    && |d.gaps| == 10 && forall i | 0 <= i < 10 :: IsGap(d.gaps[i])
  }

  function Columns(d: Details, mode: string, size: string): (cols: seq<Column>)
    requires |d.gaps| == 10
  {
    [Column(DigitClass, d.inode, d.gaps[0]), Column(DigitClass, d.blocks, d.gaps[1]),
     Column(SolidClass, mode, d.gaps[2]), Column(DigitClass, d.links, d.gaps[3]),
     Column(AnyClass, d.owner, d.gaps[4]), Column(AnyClass, d.group, d.gaps[5]),
     Column(DigitClass, size, d.gaps[6]), Column(LetterClass, d.month, d.gaps[7]),
     Column(DigitClass, d.day, d.gaps[8])]
  }

  /** A file as the tree holds it; `target` is empty unless it is a link. */
  datatype Node = Node(kind: FileMode.Kind, bits: set<nat>, size: nat, path: string, target: string)

  /** Kinds whose line has a size column and no device numbers. */
  predicate ValidNode(n: Node) {
    && !n.kind.Block? && !n.kind.Character? && n.bits <= FileMode.Twelve() && n.size < Strconv.LIMIT
    && StartsSolid(n.path) && All(n.path, AnyClass) && All(n.target, AnyClass)
    && (!n.kind.Symlink? ==> n.target == "")
  }

  function ShownPath(n: Node): string {
    if n.kind.Symlink? then n.path + " -> " + n.target else n.path
  }

  function Line(d: Details, mode: string, size: string, path: string): string
    requires |d.gaps| == 10
  {
    Text(Columns(d, mode, size)) + (d.hour + (d.minute + (d.gaps[9] + path)))
  }

  function Print(d: Details, n: Node): string
    requires |d.gaps| == 10
  {
    Line(d, FileMode.Show(n.kind, n.bits), Strconv.Dec(n.size), ShownPath(n))
  }

  /** What the in-process walker reads off the same node, apart from the
      special bits, which `os.FileMode` keeps at other positions. */
  function Info(n: Node): Fileinfo {
    Fileinfo(n.path, n.target, FileMode.TypeOf(n.kind) + n.bits, n.size)
  }

  lemma TailMatches(d: Details, p: string)
    requires ValidDetails(d) && StartsSolid(p) && All(p, AnyClass)
    ensures Match(Tail(), d.hour + (d.minute + (d.gaps[9] + p))) == Some([d.hour, d.minute, d.gaps[9], p])
  {
    var rest := [Gap()] + [Rep(AnyClass, 0, false)];
    PathStep(p);
    GapStep([Rep(AnyClass, 0, false)], d.gaps[9], p, [p]);
    ClockStep(rest, d.hour, d.minute, d.gaps[9] + p, [d.gaps[9]] + [p]);
    assert Tail() == [Lazy(DigitClass)] + ([Maybe(':', DigitClass)] + rest);
    assert [d.hour] + ([d.minute] + ([d.gaps[9]] + [p])) == [d.hour, d.minute, d.gaps[9], p];
  }

  lemma ColumnsAreValid(d: Details, mode: string, size: string)
    requires ValidDetails(d) && IsField(mode, SolidClass) && IsField(size, DigitClass)
    ensures forall c | c in Columns(d, mode, size) :: ValidColumn(c)
  {
    FieldColumn(Column(DigitClass, d.inode, d.gaps[0]));
    FieldColumn(Column(DigitClass, d.blocks, d.gaps[1]));
    FieldColumn(Column(SolidClass, mode, d.gaps[2]));
    FieldColumn(Column(DigitClass, d.links, d.gaps[3]));
    FieldColumn(Column(AnyClass, d.owner, d.gaps[4]));
    FieldColumn(Column(AnyClass, d.group, d.gaps[5]));
    FieldColumn(Column(DigitClass, size, d.gaps[6]));
    FieldColumn(Column(LetterClass, d.month, d.gaps[7]));
    FieldColumn(Column(DigitClass, d.day, d.gaps[8]));
  }

  lemma FieldColumn(c: Column)
    requires IsField(c.text, c.cls) && IsGap(c.gap)
    ensures ValidColumn(c)
  {
  }

  lemma ModeIsField(k: FileMode.Kind, bits: set<nat>)
    ensures IsField(FileMode.Show(k, bits), SolidClass)
  {
  }

  lemma SizeIsField(n: nat)
    ensures IsField(Strconv.Dec(n), DigitClass)
  {
  }

  lemma ColumnsFit(d: Details, mode: string, size: string)
    requires ValidDetails(d) && IsField(mode, SolidClass) && IsField(size, DigitClass)
    ensures var cols := Columns(d, mode, size);
      |cols| == |Layout()| == 9 && forall i | 0 <= i < 9 :: ValidColumn(cols[i]) && cols[i].cls == Layout()[i]
  {
    ColumnsAreValid(d, mode, size);
  }

  /** The format cuts a line exactly where its columns are joined. */
  lemma LineMatches(d: Details, mode: string, size: string, path: string)
    requires ValidDetails(d) && IsField(mode, SolidClass) && IsField(size, DigitClass)
    requires StartsSolid(path) && All(path, AnyClass)
    ensures var m := Match(FindFormat(), Line(d, mode, size, path));
      m.Some? && |m.value| == 22 && m.value[4] == mode && m.value[12] == size && m.value[21] == path
  {
    var cols := Columns(d, mode, size);
    var tail := [d.hour, d.minute, d.gaps[9], path];
    ColumnsFit(d, mode, size);
    TailMatches(d, path);
    ColumnsMatch(Layout(), cols, Tail(), d.hour + (d.minute + (d.gaps[9] + path)), tail);
    PieceAt(cols, tail);
  }

  lemma PrintedLineMatches(d: Details, n: Node)
    requires ValidDetails(d) && ValidNode(n)
    ensures var m := Match(FindFormat(), Print(d, n));
      m.Some? && |m.value| == 22 && m.value[4] == FileMode.Show(n.kind, n.bits)
      && m.value[12] == Strconv.Dec(n.size) && m.value[21] == ShownPath(n)
  {
    ModeIsField(n.kind, n.bits);
    SizeIsField(n.size);
    assert All(" -> ", AnyClass);
    LineMatches(d, FileMode.Show(n.kind, n.bits), Strconv.Dec(n.size), ShownPath(n));
  }

  lemma PieceAt(cols: seq<Column>, tail: seq<string>)
    requires |cols| == 9 && |tail| == 4
    ensures var r := Pieces(cols) + tail;
      |r| == 22 && r[4] == cols[2].text && r[12] == cols[6].text && r[21] == tail[3]
  {
    assert Pieces(cols)[2 * 2] == cols[2].text && Pieces(cols)[2 * 6] == cols[6].text;
  }

  // ---- Links ----

  predicate ArrowAt(s: string, i: nat) {
    i + 4 <= |s| && s[i..i + 4] == " -> "
  }

  /** The target alone decides whether the last arrow is the printed one. */
  predicate Ambiguous(target: string) {
    exists i | 0 <= i < |target| :: ArrowAt(" " + target, i)
  }

  lemma ArrowHere(s: string, k: nat)
    requires k <= |s|
    ensures var rest := [Lit(" -> "), Rep(AnyClass, 0, false)];
      All(s, AnyClass) ==> (Possible(AnyClass, rest, s, k) <==> ArrowAt(s, k))
  {
    var rest := [Lit(" -> "), Rep(AnyClass, 0, false)];
    assert rest[1..] == [Rep(AnyClass, 0, false)];
    if ArrowAt(s, k) && All(s, AnyClass) {
      assert s[k..][..4] == s[k..k + 4] && s[k..][4..] == s[k + 4..];
      PathStep(s[k + 4..]);
    } else if " -> " <= s[k..] {
      assert s[k..][..4] == s[k..k + 4];
    }
  }

  lemma LinkText(path: string, target: string)
    requires All(path, AnyClass) && All(target, AnyClass)
    ensures var s := path + " -> " + target; All(s, AnyClass) && ArrowAt(s, |path|)
    ensures var s := path + " -> " + target;
      s[..|path|] == path && s[|path|..][..4] == " -> " && s[|path|..][4..] == target
  {
  }

  /** The last arrow that starts before `n`, or -1. */
  function ArrowBefore(s: string, n: nat): (k: int)
    ensures -1 <= k < n && (k >= 0 ==> ArrowAt(s, k))
  {
    if n == 0 then -1 else if ArrowAt(s, n - 1) then n - 1 else ArrowBefore(s, n - 1)
  }

  lemma {:induction false} NoLaterArrow(s: string, n: nat, j: nat)
    requires ArrowBefore(s, n) < j < n
    ensures !ArrowAt(s, j)
  {
    if j < n - 1 { NoLaterArrow(s, n - 1, j); }
  }

  /** The text before its last arrow, and the text after it. */
  datatype Cut = Cut(path: string, target: string)

  function LastCut(s: string): Cut {
    var k := ArrowBefore(s, |s|);
    if k < 0 then Cut(s, "") else Cut(s[..k], s[k + 4..])
  }

  lemma ArrowStep(s: string, k: nat, rest: seq<Item>, m: Option<seq<string>>)
    requires All(s, AnyClass) && ArrowAt(s, k) && rest == [Lit(" -> "), Rep(AnyClass, 0, false)]
    requires m == Match(rest, s[k..])
    ensures m == Some([" -> "] + [s[k + 4..]])
  {
    assert rest[1..] == [Rep(AnyClass, 0, false)];
    assert s[k..][..4] == s[k..k + 4] && s[k..][4..] == s[k + 4..];
    PathStep(s[k + 4..]);
  }

  lemma FrontIsTaken(s: string, k: nat, rest: seq<Item>, m: Option<seq<string>>)
    requires All(s, AnyClass) && k == ArrowBefore(s, |s|) && rest == [Lit(" -> "), Rep(AnyClass, 0, false)]
    requires m == Match(rest, s[k..])
    ensures m == Some([" -> "] + [s[k + 4..]]) && Down(AnyClass, 0, rest, s, |s|) == After(s[..k], m)
  {
    ArrowHere(s, k);
    forall j | k < j <= |s| ensures !Possible(AnyClass, rest, s, j) {
      ArrowHere(s, j);
      if j < |s| { NoLaterArrow(s, |s|, j); }
    }
    DownPicks(AnyClass, 0, rest, s, |s|, k);
    ArrowStep(s, k, rest, m);
  }

  lemma GreedyFirst(s: string, rest: seq<Item>, front: string, last: seq<string>)
    requires rest == [Lit(" -> "), Rep(AnyClass, 0, false)]
    requires Down(AnyClass, 0, rest, s, |s|) == After(front, Some(last))
    ensures Match(SymlinkFormat(), s) == Some([front] + last)
  {
    assert SymlinkFormat()[1..] == rest;
  }

  lemma CutAt(s: string, k: nat, rest: seq<Item>, m: Option<seq<string>>, last: seq<string>)
    requires All(s, AnyClass) && k == ArrowBefore(s, |s|) && rest == [Lit(" -> "), Rep(AnyClass, 0, false)]
    requires m == Match(SymlinkFormat(), s) && last == [" -> "] + [s[k + 4..]]
    ensures m == Some([s[..k]] + last)
  {
    FrontIsTaken(s, k, rest, Match(rest, s[k..]));
    GreedyFirst(s, rest, s[..k], last);
  }

  /** The greedy pattern cuts at the last arrow. */
  lemma LinkIsCut(s: string, m: Option<seq<string>>)
    requires All(s, AnyClass) && ArrowBefore(s, |s|) >= 0 && m == Match(SymlinkFormat(), s)
    ensures m.Some? && |m.value| == 3 && m.value[0] == LastCut(s).path && m.value[2] == LastCut(s).target
  {
    var k: nat := ArrowBefore(s, |s|);
    CutAt(s, k, [Lit(" -> "), Rep(AnyClass, 0, false)], m, [" -> "] + [s[k + 4..]]);
  }

  /** The last arrow is the printed one, or one that shows in the target. */
  lemma LastArrowIff(path: string, target: string)
    ensures var s := path + " -> " + target; var k := ArrowBefore(s, |s|);
      k >= |path| && (k == |path| <==> !Ambiguous(target))
  {
    var s := path + " -> " + target;
    var k := ArrowBefore(s, |s|);
    assert ArrowAt(s, |path|);
    if k < |path| { NoLaterArrow(s, |s|, |path|); }
    if k > |path| { NoOverlap(path, target, k); }
    if i :| 0 <= i < |target| && ArrowAt(" " + target, i) {
      ShownArrow(path, target, i);
      if k == |path| { NoLaterArrow(s, |s|, |path| + 3 + i); }
    }
  }

  lemma ShownArrow(path: string, target: string, i: nat)
    requires ArrowAt(" " + target, i)
    ensures ArrowAt(path + " -> " + target, |path| + 3 + i)
  {
    var s := path + " -> " + target;
    assert s[|path| + 3..] == " " + target;
    assert s[|path| + 3 + i..|path| + 3 + i + 4] == (" " + target)[i..i + 4];
  }

  /** A printed link is cut at its last arrow, which is the printed one exactly
      when no arrow can be seen in the target, counting the blank before it. */
  lemma LinkSplitIff(path: string, target: string)
    requires All(path, AnyClass) && All(target, AnyClass)
    ensures var s := path + " -> " + target; var cut := LastCut(s);
      && (var m := Match(SymlinkFormat(), s);
          m.Some? && |m.value| == 3 && m.value[0] == cut.path && m.value[2] == cut.target)
      && (if Ambiguous(target) then cut.path != path && |cut.target| < |target| else cut == Cut(path, target))
  {
    var s := path + " -> " + target;
    var k := ArrowBefore(s, |s|);
    LinkText(path, target);
    LastArrowIff(path, target);
    LinkIsCut(s, Match(SymlinkFormat(), s));
    assert s[|path| + 4..] == target;
  }

  lemma NoOverlap(path: string, target: string, k: nat)
    requires |path| < k && ArrowAt(path + " -> " + target, k)
    ensures Ambiguous(target)
  {
    var s := path + " -> " + target;
    assert s[k] == ' ' && s[k + 1] == '-' by { assert s[k..k + 4][0] == ' ' && s[k..k + 4][1] == '-'; }
    assert s[|path| + 1] == '-' && s[|path| + 2] == '>';
    var i := k - |path| - 3;
    assert s[|path| + 3..] == " " + target;
    assert s[k..k + 4] == (" " + target)[i..i + 4];
    assert ArrowAt(" " + target, i);
  }

  // ---- Main results ----

  /** What a reader takes the printed node for: the line shows no more. */
  function AsRead(n: Node): Fileinfo {
    if n.kind.Symlink? then
      Fileinfo(LastCut(ShownPath(n)).path, LastCut(ShownPath(n)).target, FileMode.TypeOf(n.kind) + n.bits, n.size)
    else Info(n)
  }

  lemma InterpretReads(n: Node)
    requires ValidNode(n)
    ensures Interpret(FileMode.Show(n.kind, n.bits), Strconv.Dec(n.size), ShownPath(n)) == Entry(AsRead(n))
  {
    FileMode.ModeRoundTrip(n.kind, n.bits);
    Strconv.ParseDec(n.size);
    if n.kind.Symlink? {
      LinkSplitIff(n.path, n.target);
    }
  }

  /** Parsing a printed line gives back type, permission and special bits,
      size, path and target, for exactly the links whose target shows no arrow;
      of the others it gives a shorter target. */
  lemma RoundTripIff(d: Details, n: Node)
    requires ValidDetails(d) && ValidNode(n)
    ensures ParseFindEntry(Print(d, n)) == Entry(AsRead(n))
    ensures AsRead(n) == Info(n) <==> !(n.kind.Symlink? && Ambiguous(n.target))
    ensures n.kind.Symlink? && Ambiguous(n.target) ==> |AsRead(n).symlinkPath| < |n.target|
  {
    PrintedLineMatches(d, n);
    InterpretReads(n);
    if n.kind.Symlink? {
      LinkSplitIff(n.path, n.target);
    }
  }

  /** A mode column of fewer than ten characters ends the scan, and of a longer one
      only ten count: a mark behind them, as for an access list, changes nothing. */
  lemma ModeColumnIff(d: Details, mode: string, size: string, path: string)
    requires ValidDetails(d) && IsField(mode, SolidClass) && IsField(size, DigitClass)
    requires StartsSolid(path) && All(path, AnyClass)
    ensures ParseFindEntry(Line(d, mode, size, path)) == Panics <==> |mode| < 10
    ensures |mode| >= 10 ==>
              ParseFindEntry(Line(d, mode, size, path)) == ParseFindEntry(Line(d, mode[..10], size, path))
  {
    LineMatches(d, mode, size, path);
    if |mode| >= 10 {
      LineMatches(d, mode[..10], size, path);
      FileMode.TenColumns(mode, 10);
    }
  }

  /** A line is only recognised if its first column is not padded. */
  lemma PaddedLineIff(pad: string, d: Details, n: Node)
    requires ValidDetails(d) && ValidNode(n) && All(pad, BlankClass)
    ensures ParseFindEntry(pad + Print(d, n)) == Invalid <==> pad != ""
  {
    if pad == "" {
      assert pad + Print(d, n) == Print(d, n);
      RoundTripIff(d, n);
    } else {
      PaddedLineFails(pad + Print(d, n));
    }
  }

  lemma PaddedLineFails(line: string)
    requires line == "" || IsBlank(line[0])
    ensures ParseFindEntry(line) == Invalid
  {
  }
}
