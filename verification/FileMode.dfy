/** File modes as the set of bit positions that are one, and the decoder of
    `ls -l` mode columns. */
module FileMode {
  type Mode = set<nat>

  const DIR: nat := 31
  const SYMLINK: nat := 27
  const DEVICE: nat := 26
  const NAMED_PIPE: nat := 25
  const SOCKET: nat := 24
  const SETUID: nat := 23
  const SETGID: nat := 22
  const CHAR_DEVICE: nat := 21
  const STICKY: nat := 20
  const IRREGULAR: nat := 19

  /** The type bits of a mode, and the nine permission bits. */
  function Type(m: Mode): Mode {
    m * {DIR, SYMLINK, DEVICE, NAMED_PIPE, SOCKET, CHAR_DEVICE, IRREGULAR}
  }

  function Perm(m: Mode): Mode {
    m * {0, 1, 2, 3, 4, 5, 6, 7, 8}
  }

  datatype Shown = Shown(mode: Mode, chr: char)

  /** What each column may show, and the bits it stands for. The special bits
      are 11, 10 and 9 of the system call, not those of `os.FileMode`. */
  function Table(): (t: seq<seq<Shown>>)
    ensures |t| == 10
  {
    [[Shown({SYMLINK}, 'l'), Shown({SOCKET}, 's'), Shown({}, '-'), Shown({DEVICE}, 'b'), Shown({DIR}, 'd'),
      Shown({DEVICE, CHAR_DEVICE}, 'c'), Shown({NAMED_PIPE}, 'p'), Shown({IRREGULAR}, '?')],
     [Shown({8}, 'r')], [Shown({7}, 'w')], [Shown({6, 11}, 's'), Shown({11}, 'S'), Shown({6}, 'x')],
     [Shown({5}, 'r')], [Shown({4}, 'w')], [Shown({3, 10}, 's'), Shown({10}, 'S'), Shown({3}, 'x')],
     [Shown({2}, 'r')], [Shown({1}, 'w')], [Shown({0, 9}, 't'), Shown({9}, 'T'), Shown({0}, 'x')]]
  }

  /** The bits of the first `n` alternatives of a column that show `chr`. */
  function Column(row: seq<Shown>, n: nat, chr: char): Mode
    requires n <= |row|
  {
    if n == 0 then {} else Column(row, n - 1, chr) + if row[n - 1].chr == chr then row[n - 1].mode else {}
  }

  /** The union over the first `n` columns. */
  function Decode(s: string, n: nat): Mode
    requires n <= 10 && n <= |s|
  {
    if n == 0 then {} else Decode(s, n - 1) + Column(Table()[n - 1], |Table()[n - 1]|, s[n - 1])
  }

  lemma {:induction false} TenColumns(s: string, n: nat)
    requires n <= 10 <= |s|
    ensures Decode(s[..10], n) == Decode(s, n)
  {
    if n > 0 { TenColumns(s, n - 1); }
  }

  method UnFilemode(s: string) returns (mode: Mode)
    requires |s| >= 10
    ensures mode == Decode(s, 10)
  {
    mode := {};
    var table := Table();
    for i := 0 to 10
      invariant mode == Decode(s, i)
    {
      var row := table[i];
      for j := 0 to |row|
        invariant mode == Decode(s, i) + Column(row, j, s[i])
      {
        if s[i] == row[j].chr {
          mode := mode + row[j].mode;
        }
      }
    }
  }

  // ---- Printing a mode and reading it back ----

  datatype Kind = Regular | Directory | Symlink | Socket | Pipe | Block | Character

  function Letter(k: Kind): char {
    match k
    case Regular => '-'
    case Directory => 'd'
    case Symlink => 'l'
    case Socket => 's'
    case Pipe => 'p'
    case Block => 'b'
    case Character => 'c'
  }

  /** The type bits `os.Lstat` reports for a kind. */
  function TypeOf(k: Kind): Mode {
    match k
    case Regular => {}
    case Directory => {DIR}
    case Symlink => {SYMLINK}
    case Socket => {SOCKET}
    case Pipe => {NAMED_PIPE}
    case Block => {DEVICE}
    case Character => {DEVICE, CHAR_DEVICE}
  }

  function Flag(m: Mode, bit: nat, chr: char): char {
    if bit in m then chr else '-'
  }

  /** An execute column, which also shows a special bit. */
  function Special(m: Mode, exec: nat, special: nat, both: char, only: char): char {
    if special in m then (if exec in m then both else only) else Flag(m, exec, 'x')
  }

  /** The mode column `ls -l` prints for the twelve bits of `m`. */
  function Show(k: Kind, m: Mode): (s: string)
    ensures |s| == 10 && forall i | 0 <= i < 10 :: 'A' <= s[i] <= 'z' || s[i] == '-'
  {
    [Letter(k), Flag(m, 8, 'r'), Flag(m, 7, 'w'), Special(m, 6, 11, 's', 'S'),
     Flag(m, 5, 'r'), Flag(m, 4, 'w'), Special(m, 3, 10, 's', 'S'),
     Flag(m, 2, 'r'), Flag(m, 1, 'w'), Special(m, 0, 9, 't', 'T')]
  }

  lemma {:induction false} ColumnMiss(row: seq<Shown>, n: nat, chr: char)
    requires n <= |row| && forall j | 0 <= j < n :: row[j].chr != chr
    ensures Column(row, n, chr) == {}
  {
    if n > 0 {
      ColumnMiss(row, n - 1, chr);
    }
  }

  lemma {:induction false} ColumnHit(row: seq<Shown>, n: nat, chr: char, k: nat)
    requires k < n <= |row| && row[k].chr == chr && forall j | 0 <= j < n && j != k :: row[j].chr != chr
    ensures Column(row, n, chr) == row[k].mode
  {
    if n == k + 1 {
      ColumnMiss(row, k, chr);
    } else {
      ColumnHit(row, n - 1, chr, k);
    }
  }

  lemma FlagColumn(m: Mode, bit: nat, chr: char)
    requires chr != '-'
    ensures Column([Shown({bit}, chr)], 1, Flag(m, bit, chr)) == m * {bit}
  {
  }

  lemma SpecialColumn(m: Mode, exec: nat, special: nat, both: char, only: char)
    requires both != only && both != 'x' && only != 'x' && both != '-' && only != '-'
    ensures Column([Shown({exec, special}, both), Shown({special}, only), Shown({exec}, 'x')], 3,
                   Special(m, exec, special, both, only)) == m * {exec, special}
  {
    var row := [Shown({exec, special}, both), Shown({special}, only), Shown({exec}, 'x')];
    var c := Special(m, exec, special, both, only);
    if special in m {
      ColumnHit(row, 3, c, if exec in m then 0 else 1);
    } else if exec in m {
      ColumnHit(row, 3, c, 2);
    } else {
      ColumnMiss(row, 3, c);
    }
  }

  lemma KindColumn(k: Kind)
    ensures Column(Table()[0], |Table()[0]|, Letter(k)) == TypeOf(k)
  {
    var at := match k
      case Symlink => 0
      case Socket => 1
      case Regular => 2
      case Block => 3
      case Directory => 4
      case Character => 5
      case Pipe => 6;
    ColumnHit(Table()[0], |Table()[0]|, Letter(k), at);
  }

  /** The twelve bits a mode column can show. */
  function Twelve(): Mode {
    {0, 1, 2, 3, 4, 5, 6, 7, 8, 9, 10, 11}
  }

  lemma OwnerColumns(k: Kind, m: Mode)
    ensures Decode(Show(k, m), 4) == TypeOf(k) + m * {8} + m * {7} + m * {6, 11}
  {
    KindColumn(k);
    FlagColumn(m, 8, 'r');
    FlagColumn(m, 7, 'w');
    SpecialColumn(m, 6, 11, 's', 'S');
    assert Decode(Show(k, m), 1) == {} + TypeOf(k);
    assert Decode(Show(k, m), 2) == TypeOf(k) + m * {8};
  }

  lemma GroupColumns(k: Kind, m: Mode)
    ensures Decode(Show(k, m), 7) == Decode(Show(k, m), 4) + m * {5} + m * {4} + m * {3, 10}
  {
    FlagColumn(m, 5, 'r');
    FlagColumn(m, 4, 'w');
    SpecialColumn(m, 3, 10, 's', 'S');
    assert Decode(Show(k, m), 5) == Decode(Show(k, m), 4) + m * {5};
  }

  lemma OtherColumns(k: Kind, m: Mode)
    ensures Decode(Show(k, m), 10) == Decode(Show(k, m), 7) + m * {2} + m * {1} + m * {0, 9}
  {
    FlagColumn(m, 2, 'r');
    FlagColumn(m, 1, 'w');
    SpecialColumn(m, 0, 9, 't', 'T');
    assert Decode(Show(k, m), 8) == Decode(Show(k, m), 7) + m * {2};
  }

  lemma Assemble(t: Mode, m: Mode)
    requires m <= Twelve()
    ensures t + m * {8} + m * {7} + m * {6, 11} + m * {5} + m * {4} + m * {3, 10}
            + m * {2} + m * {1} + m * {0, 9} == t + m
  {
  }

  /** Decoding a printed mode gives back its type and its twelve bits. */
  lemma ModeRoundTrip(k: Kind, m: Mode)
    requires m <= Twelve()
    ensures Decode(Show(k, m), 10) == TypeOf(k) + m
  {
    OwnerColumns(k, m);
    GroupColumns(k, m);
    OtherColumns(k, m);
    Assemble(TypeOf(k), m);
  }
}
