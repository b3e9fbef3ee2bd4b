/** The selector's CSV loader: which rows become copy entries, and which node
    runs them. */
module CsvLoader {
  import opened Tree
  import opened Sequences
  import Strconv

  datatype CopyEntry = CopyEntry(
    node: int, sourceVolume: string, destinationVolume: string, sourcePath: string, destinationPath: string,
    sourceProjectId: int, sourceProjectName: string, usedSize: int, usedSizeHuman: string, volumeType: string,
    volumeSize: int, volumeSizeHuman: string, destinationProjectName: string, volumeName: string,
    sourceVolumeKey: string)

  type Record = seq<string>

  const ENTRY_NUM: nat := 15

  /** The white space of Unicode. */
  predicate IsSpace(c: char) {
    || c == ' ' || '\t' <= c <= '\r' || c == '\U{0085}' || c == '\U{00A0}' || c == '\U{1680}'
    || '\U{2000}' <= c <= '\U{200A}' || c == '\U{2028}' || c == '\U{2029}' || c == '\U{202F}'
    || c == '\U{205F}' || c == '\U{3000}'
  }

  function TrimLeft(s: string): string {
    if s != "" && IsSpace(s[0]) then TrimLeft(s[1..]) else s
  }

  function TrimRight(s: string): string {
    if s != "" && IsSpace(s[|s| - 1]) then TrimRight(s[..|s| - 1]) else s
  }

  function TrimSpace(s: string): string {
    TrimRight(TrimLeft(s))
  }

  function Unsigned(s: string): Option<nat> {
    if s == "" || !(forall i | 0 <= i < |s| :: Strconv.IsDigit(s[i])) then None
    else Some(Strconv.Decimal(Strconv.Digits(s)))
  }

  predicate Signed(s: string) {
    s != "" && (s[0] == '-' || s[0] == '+')
  }

  predicate InRange(n: int) {
    -Strconv.LIMIT <= n < Strconv.LIMIT
  }

  /** A strict decimal of 64 bits: an optional sign and nothing but digits. */
  function Atoi(s: string): Option<int> {
    var magnitude := Unsigned(if Signed(s) then s[1..] else s);
    if magnitude.None? then None
    else
      var value := if s[0] == '-' then 0 - magnitude.value else magnitude.value;
      if InRange(value) then Some(value) else None
  }

  /** The entry a row stands for on the node that runs `selector`, all nodes
      if it is negative. */
  function Accept(selector: int, row: Record): Option<CopyEntry> {
    if |row| < ENTRY_NUM || row[0] == "" || !Strconv.IsDigit(row[0][0]) then None
    else
      var node, project, used, size := Atoi(row[0]), Atoi(row[5]), Atoi(row[7]), Atoi(row[10]);
      if node.None? || (selector >= 0 && selector != node.value) || project.None? || used.None? || size.None? then None
      else
        Some(CopyEntry(node.value, TrimSpace(row[1]), TrimSpace(row[2]), TrimSpace(row[3]), TrimSpace(row[4]),
                       project.value, TrimSpace(row[6]), used.value, TrimSpace(row[8]), TrimSpace(row[9]),
                       size.value, TrimSpace(row[11]), TrimSpace(row[12]), TrimSpace(row[13]), TrimSpace(row[14])))
  }

  /** What the CSV reader yields: rows, and possibly an error that ends them. */
  datatype Read = Row(fields: Record) | ReadError

  function Accepted(selector: int, items: seq<Read>): seq<CopyEntry> {
    if items == [] || items[0].ReadError? then []
    else
      var e := Accept(selector, items[0].fields);
      (if e.Some? then [e.value] else []) + Accepted(selector, items[1..])
  }

  /** The checks in the order of the columns they read. */
  method ParseRow(selector: int, row: Record) returns (entry: Option<CopyEntry>)
    ensures entry == Accept(selector, row)
  {
    if |row| < ENTRY_NUM || |row[0]| < 1 || !Strconv.IsDigit(row[0][0]) {
      return None;
    }
    var node := Atoi(row[0]);
    if node.None? || (selector >= 0 && selector != node.value) {
      return None;
    }
    var project := Atoi(row[5]);
    if project.None? {
      return None;
    }
    var used := Atoi(row[7]);
    if used.None? {
      return None;
    }
    var size := Atoi(row[10]);
    if size.None? {
      return None;
    }
    return Some(CopyEntry(
      node.value, TrimSpace(row[1]), TrimSpace(row[2]), TrimSpace(row[3]), TrimSpace(row[4]), project.value,
      TrimSpace(row[6]), used.value, TrimSpace(row[8]), TrimSpace(row[9]), size.value,
      TrimSpace(row[11]), TrimSpace(row[12]), TrimSpace(row[13]), TrimSpace(row[14])));
  }

  lemma AcceptedFrom(selector: int, items: seq<Read>, i: nat)
    requires i < |items| && items[i].Row?
    ensures var e := Accept(selector, items[i].fields);
      Accepted(selector, items[i..]) == (if e.Some? then [e.value] else []) + Accepted(selector, items[i + 1..])
  {
  }

  /** The entry of the next row, as far as the accepted entries show it. */
  method NextEntry(selector: int, items: seq<Read>, i: nat) returns (entry: Option<CopyEntry>)
    requires i < |items| && items[i].Row?
    ensures Accepted(selector, items[i..]) ==
            (if entry.Some? then [entry.value] else []) + Accepted(selector, items[i + 1..])
  {
    AcceptedFrom(selector, items, i);
    entry := ParseRow(selector, items[i].fields);
  }

  lemma NoMoreRows(selector: int, items: seq<Read>, i: nat)
    requires i <= |items| && (i < |items| ==> items[i].ReadError?)
    ensures Accepted(selector, items[i..]) == []
  {
  }

  lemma OneMoreSent(all: seq<CopyEntry>, sent: seq<CopyEntry>, entry: Option<CopyEntry>, rest: seq<CopyEntry>)
    requires all == sent + ((if entry.Some? then [entry.value] else []) + rest)
    ensures all == (if entry.Some? then sent + [entry.value] else sent) + rest
  {
  }

  /** Sends succeed until the context is cancelled, after `room` of them; a
      read error ends the rows like the end of the file does. */
  method LoadCopyEntryCSV(selector: int, items: seq<Read>, room: nat) returns (sent: seq<CopyEntry>)
    ensures sent == Take(Accepted(selector, items), room)
  {
    ghost var all := Accepted(selector, items);
    ghost var rest := all;
    sent := [];
    var i := 0;
    assert items[0..] == items;
    while i < |items| && items[i].Row?
      invariant i <= |items| && |sent| <= room
      invariant all == sent + rest && rest == Accepted(selector, items[i..])
    {
      var entry := NextEntry(selector, items, i);
      i := i + 1;
      if entry.Some? && |sent| == room {
        TakeFront(sent, rest, room);
        return;
      }
      OneMoreSent(all, sent, entry, Accepted(selector, items[i..]));
      rest := Accepted(selector, items[i..]);
      if entry.None? {
        continue;
      }
      sent := sent + [entry.value];
    }
    NoMoreRows(selector, items, i);
    TakeFront(sent, rest, room);
  }

  predicate StandsFor(selector: int, item: Read, e: CopyEntry) {
    item.Row? && Accept(selector, item.fields) == Some(e)
  }

  /** No read error ends the rows before row `i`. */
  predicate GotTo(items: seq<Read>, i: nat) {
    i < |items| && forall j | 0 <= j < i :: items[j].Row?
  }

  predicate ReadAs(selector: int, items: seq<Read>, i: nat, e: CopyEntry) {
    GotTo(items, i) && StandsFor(selector, items[i], e)
  }

  lemma FirstRow(selector: int, items: seq<Read>, e: CopyEntry) returns (first: seq<CopyEntry>)
    requires items != [] && items[0].Row?
    ensures Accepted(selector, items) == first + Accepted(selector, items[1..])
    ensures e in first <==> StandsFor(selector, items[0], e)
  {
    var entry := Accept(selector, items[0].fields);
    first := if entry.Some? then [entry.value] else [];
  }

  lemma LaterRow(items: seq<Read>, i: nat)
    requires items != [] && items[0].Row?
    ensures GotTo(items[1..], i) <==> GotTo(items, i + 1)
    ensures GotTo(items, i + 1) ==> items[1..][i] == items[i + 1]
  {
    if GotTo(items[1..], i) {
      forall j | 0 <= j < i + 1 ensures items[j].Row? {
        assert j > 0 ==> items[j] == items[1..][j - 1];
      }
    }
    if GotTo(items, i + 1) {
      assert forall j | 0 <= j < i :: items[1..][j] == items[j + 1];
    }
  }

  /** A row that is not accepted does not keep later ones from being read. */
  lemma {:induction false} AcceptedIff(selector: int, items: seq<Read>, e: CopyEntry)
    ensures e in Accepted(selector, items) <==> exists i: nat :: ReadAs(selector, items, i, e)
  {
    if items != [] && items[0].Row? {
      var first := FirstRow(selector, items, e);
      AcceptedIff(selector, items[1..], e);
      if i: nat :| ReadAs(selector, items, i, e) {
        if i > 0 {
          LaterRow(items, i - 1);
          assert ReadAs(selector, items[1..], i - 1, e);
        }
      }
      if i: nat :| ReadAs(selector, items[1..], i, e) {
        LaterRow(items, i);
        assert ReadAs(selector, items, i + 1, e);
      }
      if StandsFor(selector, items[0], e) {
        assert ReadAs(selector, items, 0, e);
      }
    } else {
      assert forall i: nat :: !ReadAs(selector, items, i, e);
    }
  }

  // ---- A row on exactly one node ----

  /** Among the nodes 0, 1, 2, ..., exactly the entry's own accepts the row,
      and reads the same entry as a run without a selector. */
  lemma NodesPartitionRows(row: Record, selector: int)
    requires selector >= 0
    ensures Accept(selector, row).Some? <==> Accept(-1, row).Some? && Accept(-1, row).value.node == selector
    ensures Accept(selector, row).Some? ==> Accept(selector, row) == Accept(-1, row)
    ensures Accept(-1, row).Some? ==> Accept(-1, row).value.node >= 0
  {
  }

  function OfNode(entries: seq<CopyEntry>, node: int): seq<CopyEntry> {
    if entries == [] then []
    else (if entries[0].node == node then [entries[0]] else []) + OfNode(entries[1..], node)
  }

  /** Over a whole file, a node runs the entries of its number, in file order:
      together the nodes run every entry of the file exactly once. */
  lemma {:induction false} NodesPartitionFile(items: seq<Read>, selector: int)
    requires selector >= 0
    ensures Accepted(selector, items) == OfNode(Accepted(-1, items), selector)
  {
    if items != [] && items[0].Row? {
      NodesPartitionFile(items[1..], selector);
      NodesPartitionRows(items[0].fields, selector);
      var all := Accept(-1, items[0].fields);
      if all.Some? {
        assert ([all.value] + Accepted(-1, items[1..]))[1..] == Accepted(-1, items[1..]);
      } else {
        assert [] + Accepted(-1, items[1..]) == Accepted(-1, items[1..]);
      }
    }
  }

  // ---- Writing a row and reading it back ----

  function Show(n: int): string {
    if n < 0 then "-" + Strconv.Dec(0 - n) else Strconv.Dec(n)
  }

  lemma UnsignedDec(n: nat)
    ensures Unsigned(Strconv.Dec(n)) == Some(n)
  {
    Strconv.DigitsOfDec(n);
  }

  /** A sign, or none, in front of a magnitude. */
  lemma AtoiSigned(sign: string, body: string, m: nat)
    requires sign == "" || sign == "+" || sign == "-"
    requires body != "" && Strconv.IsDigit(body[0]) && Unsigned(body) == Some(m)
    requires InRange(if sign == "-" then 0 - m else m)
    ensures Atoi(sign + body) == Some(if sign == "-" then 0 - m else m)
  {
    var s := sign + body;
    if sign == "" {
      assert s == body && !Signed(s);
    } else {
      assert Signed(s) && s[0] == sign[0] && s[1..] == body;
    }
  }

  lemma AtoiShow(n: int)
    requires -Strconv.LIMIT <= n < Strconv.LIMIT
    ensures Atoi(Show(n)) == Some(n)
  {
    var m := if n < 0 then 0 - n else n;
    UnsignedDec(m);
    assert Strconv.IsDigit(Strconv.Dec(m)[0]);
    AtoiSigned(if n < 0 then "-" else "", Strconv.Dec(m), m);
    assert "" + Strconv.Dec(m) == Strconv.Dec(m);
  }

  // ---- Exactly the rows that are accepted ----

  /** The text is a sign or none, and digits whose positional value is `n`. */
  ghost predicate Denotes(s: string, n: int) {
    exists sign: string, ds: seq<nat> ::
      && (sign == "" || sign == "+" || sign == "-") && ds != [] && Strconv.AreDigits(ds)
      && s == sign + Strconv.Text(ds)
      && n == if sign == "-" then 0 - Strconv.Positional(ds) else Strconv.Positional(ds)
  }

  lemma UnsignedText(ds: seq<nat>)
    requires ds != [] && Strconv.AreDigits(ds)
    ensures Unsigned(Strconv.Text(ds)) == Some(Strconv.Positional(ds))
    ensures Strconv.IsDigit(Strconv.Text(ds)[0])
  {
    Strconv.DigitsOfText(ds);
    Strconv.DecimalIsPositional(ds);
  }

  lemma TextUnsigned(s: string) returns (ds: seq<nat>)
    requires Unsigned(s).Some?
    ensures ds != [] && Strconv.AreDigits(ds) && s == Strconv.Text(ds) && Unsigned(s).value == Strconv.Positional(ds)
  {
    Strconv.TextOfDigits(s);
    ds := Strconv.Digits(s);
    Strconv.DecimalIsPositional(ds);
  }

  lemma DenotedIsRead(s: string, n: int)
    requires Denotes(s, n) && InRange(n)
    ensures Atoi(s) == Some(n)
  {
    var sign: string, ds: seq<nat> :|
      && (sign == "" || sign == "+" || sign == "-") && ds != [] && Strconv.AreDigits(ds)
      && s == sign + Strconv.Text(ds)
      && n == if sign == "-" then 0 - Strconv.Positional(ds) else Strconv.Positional(ds);
    UnsignedText(ds);
    AtoiSigned(sign, Strconv.Text(ds), Strconv.Positional(ds));
  }

  lemma ReadIsDenoted(s: string)
    requires Atoi(s).Some?
    ensures Denotes(s, Atoi(s).value) && InRange(Atoi(s).value)
  {
    var sign := if Signed(s) then s[..1] else "";
    var body := if Signed(s) then s[1..] else s;
    var ds := TextUnsigned(body);
    assert s == sign + Strconv.Text(ds);
  }

  /** A number is read exactly from the texts that denote it, within 64 bits. */
  lemma AtoiIff(s: string, n: int)
    ensures Atoi(s) == Some(n) <==> Denotes(s, n) && InRange(n)
  {
    if Atoi(s) == Some(n) {
      ReadIsDenoted(s);
    }
    if Denotes(s, n) && InRange(n) {
      DenotedIsRead(s, n);
    }
  }

  predicate Blank(s: string) {
    forall i | 0 <= i < |s| :: IsSpace(s[i])
  }

  predicate Trimmed(s: string) {
    s != "" ==> !IsSpace(s[0]) && !IsSpace(s[|s| - 1])
  }

  lemma {:induction false} TrimLeftPad(pad: string, s: string)
    requires Blank(pad) && (s == "" || !IsSpace(s[0]))
    ensures TrimLeft(pad + s) == s
  {
    if pad == "" {
      assert pad + s == s;
    } else {
      assert (pad + s)[1..] == pad[1..] + s;
      TrimLeftPad(pad[1..], s);
    }
  }

  lemma {:induction false} TrimRightPad(s: string, pad: string)
    requires Blank(pad) && (s == "" || !IsSpace(s[|s| - 1]))
    ensures TrimRight(s + pad) == s
  {
    if pad == "" {
      assert s + pad == s;
    } else {
      assert (s + pad)[..|s + pad| - 1] == s + pad[..|pad| - 1];
      TrimRightPad(s, pad[..|pad| - 1]);
    }
  }

  /** `field` is `s` with blanks around it. */
  ghost predicate Padded(field: string, s: string) {
    exists left, right :: Blank(left) && Blank(right) && field == left + (s + right)
  }

  lemma {:induction false} TrimLeftBlank(pad: string)
    requires Blank(pad)
    ensures TrimLeft(pad) == ""
  {
    if pad != "" {
      TrimLeftBlank(pad[1..]);
    }
  }

  lemma TrimPadded(field: string, s: string)
    requires Padded(field, s) && Trimmed(s)
    ensures TrimSpace(field) == s
  {
    var left, right :| Blank(left) && Blank(right) && field == left + (s + right);
    if s == "" {
      assert Blank(field);
      TrimLeftBlank(field);
    } else {
      TrimLeftPad(left, s + right);
      TrimRightPad(s, right);
    }
  }

  lemma {:induction false} LeftPart(s: string) returns (left: string)
    ensures Blank(left) && s == left + TrimLeft(s) && (TrimLeft(s) == "" || !IsSpace(TrimLeft(s)[0]))
  {
    left := "";
    if s != "" && IsSpace(s[0]) {
      var more := LeftPart(s[1..]);
      left := [s[0]] + more;
    }
  }

  lemma {:induction false} RightPart(s: string) returns (right: string)
    ensures Blank(right) && s == TrimRight(s) + right
    ensures TrimRight(s) == "" || !IsSpace(TrimRight(s)[|TrimRight(s)| - 1])
    ensures TrimRight(s) != "" ==> TrimRight(s)[0] == s[0]
  {
    right := "";
    if s != "" && IsSpace(s[|s| - 1]) {
      var more := RightPart(s[..|s| - 1]);
      right := more + [s[|s| - 1]];
      assert s == s[..|s| - 1] + [s[|s| - 1]];
    }
  }

  /** The field is the text with blanks around it, none at its own ends. */
  ghost predicate Shows(field: string, text: string) {
    Trimmed(text) && Padded(field, text)
  }

  lemma TrimSpaceIff(field: string, text: string)
    ensures TrimSpace(field) == text <==> Shows(field, text)
  {
    if Shows(field, text) {
      TrimPadded(field, text);
    }
    var left := LeftPart(field);
    var right := RightPart(TrimLeft(field));
    assert field == left + (TrimSpace(field) + right);
  }

  /** The texts of `e`, padded at will. */
  ghost predicate WritesTexts(row: Record, e: CopyEntry)
    requires |row| >= ENTRY_NUM
  {
    && Shows(row[1], e.sourceVolume) && Shows(row[2], e.destinationVolume) && Shows(row[3], e.sourcePath)
    && Shows(row[4], e.destinationPath) && Shows(row[6], e.sourceProjectName) && Shows(row[8], e.usedSizeHuman)
    && Shows(row[9], e.volumeType) && Shows(row[11], e.volumeSizeHuman) && Shows(row[12], e.destinationProjectName)
    && Shows(row[13], e.volumeName) && Shows(row[14], e.sourceVolumeKey)
  }

  /** The numbers of `e`, of 64 bits each; the node's has no sign. */
  ghost predicate WritesNumbers(row: Record, e: CopyEntry)
    requires |row| >= ENTRY_NUM
  {
    && row[0] != "" && Strconv.IsDigit(row[0][0])
    && Denotes(row[0], e.node) && Denotes(row[5], e.sourceProjectId)
    && Denotes(row[7], e.usedSize) && Denotes(row[10], e.volumeSize)
    && InRange(e.node) && InRange(e.sourceProjectId) && InRange(e.usedSize) && InRange(e.volumeSize)
  }

  ghost predicate Numbers(row: Record, node: int, project: int, used: int, size: int)
    requires |row| >= ENTRY_NUM
  {
    && row[0] != "" && Strconv.IsDigit(row[0][0])
    && Atoi(row[0]) == Some(node) && Atoi(row[5]) == Some(project)
    && Atoi(row[7]) == Some(used) && Atoi(row[10]) == Some(size)
  }

  lemma NumbersIff(row: Record, e: CopyEntry)
    requires |row| >= ENTRY_NUM
    ensures WritesNumbers(row, e) <==> Numbers(row, e.node, e.sourceProjectId, e.usedSize, e.volumeSize)
  {
    AtoiIff(row[0], e.node);
    AtoiIff(row[5], e.sourceProjectId);
    AtoiIff(row[7], e.usedSize);
    AtoiIff(row[10], e.volumeSize);
  }

  ghost predicate Texts(row: Record, e: CopyEntry)
    requires |row| >= ENTRY_NUM
  {
    && TrimSpace(row[1]) == e.sourceVolume && TrimSpace(row[2]) == e.destinationVolume
    && TrimSpace(row[3]) == e.sourcePath && TrimSpace(row[4]) == e.destinationPath
    && TrimSpace(row[6]) == e.sourceProjectName && TrimSpace(row[8]) == e.usedSizeHuman
    && TrimSpace(row[9]) == e.volumeType && TrimSpace(row[11]) == e.volumeSizeHuman
    && TrimSpace(row[12]) == e.destinationProjectName && TrimSpace(row[13]) == e.volumeName
    && TrimSpace(row[14]) == e.sourceVolumeKey
  }

  lemma TextsIff(row: Record, e: CopyEntry)
    requires |row| >= ENTRY_NUM
    ensures WritesTexts(row, e) <==> Texts(row, e)
  {
    TrimSpaceIff(row[1], e.sourceVolume);
    TrimSpaceIff(row[2], e.destinationVolume);
    TrimSpaceIff(row[3], e.sourcePath);
    TrimSpaceIff(row[4], e.destinationPath);
    TrimSpaceIff(row[6], e.sourceProjectName);
    TrimSpaceIff(row[8], e.usedSizeHuman);
    TrimSpaceIff(row[9], e.volumeType);
    TrimSpaceIff(row[11], e.volumeSizeHuman);
    TrimSpaceIff(row[12], e.destinationProjectName);
    TrimSpaceIff(row[13], e.volumeName);
    TrimSpaceIff(row[14], e.sourceVolumeKey);
  }

  lemma AcceptReads(selector: int, row: Record, e: CopyEntry)
    requires |row| >= ENTRY_NUM
    ensures Accept(selector, row) == Some(e) <==>
            && Numbers(row, e.node, e.sourceProjectId, e.usedSize, e.volumeSize) && Texts(row, e)
            && (selector < 0 || selector == e.node)
  {
  }

  /** A row stands for an entry exactly when it has all columns, writes the
      entry's numbers and texts, and is for this node. */
  lemma AcceptIff(selector: int, row: Record, e: CopyEntry)
    ensures Accept(selector, row) == Some(e) <==>
            && |row| >= ENTRY_NUM && WritesNumbers(row, e) && WritesTexts(row, e)
            && (selector < 0 || selector == e.node)
  {
    if |row| >= ENTRY_NUM {
      NumbersIff(row, e);
      TextsIff(row, e);
      AcceptReads(selector, row, e);
    }
  }

  /** A row that prints `e`, with any columns after. */
  ghost predicate Writes(row: Record, e: CopyEntry) {
    && |row| >= ENTRY_NUM && WritesTexts(row, e)
    && row[0] == Show(e.node) && row[5] == Show(e.sourceProjectId)
    && row[7] == Show(e.usedSize) && row[10] == Show(e.volumeSize)
  }

  lemma NumbersRead(row: Record, e: CopyEntry)
    requires Writes(row, e) && 0 <= e.node && InRange(e.node)
    requires InRange(e.sourceProjectId) && InRange(e.usedSize) && InRange(e.volumeSize)
    ensures Numbers(row, e.node, e.sourceProjectId, e.usedSize, e.volumeSize)
  {
    AtoiShow(e.node);
    AtoiShow(e.sourceProjectId);
    AtoiShow(e.usedSize);
    AtoiShow(e.volumeSize);
  }

  lemma AcceptNode(selector: int, row: Record, e: CopyEntry)
    requires |row| >= ENTRY_NUM && row[0] != "" && Atoi(row[0]) == Some(e.node) && selector >= 0 && selector != e.node
    ensures Accept(selector, row).None?
  {
  }

  /** Reading back a written row gives its entry, on exactly the nodes that
      should run it. */
  lemma RowRoundTrip(row: Record, e: CopyEntry, selector: int)
    requires Writes(row, e) && 0 <= e.node && InRange(e.node)
    requires InRange(e.sourceProjectId) && InRange(e.usedSize) && InRange(e.volumeSize)
    ensures Accept(selector, row) == if selector < 0 || selector == e.node then Some(e) else None
  {
    NumbersRead(row, e);
    TextsIff(row, e);
    AcceptReads(selector, row, e);
    if selector >= 0 && selector != e.node { AcceptNode(selector, row, e); }
  }
}
