/** Rotation of a live log: rename, reopen, sync and descriptor swap, with the
    rename undone when a later step fails. */
module LogRotation {
  import opened Sequences

  type Inode = nat

  type Text = seq<bv8>

  /** The extension of the last path element, from its last dot. */
  function ExtStart(filename: string): (n: nat)
    ensures n <= |filename|
  {
    ExtFrom(filename, |filename|)
  }

  function ExtFrom(filename: string, i: nat): (n: nat)
    requires i <= |filename|
    ensures n <= |filename|
  {
    if i == 0 || filename[i - 1] == '/' then |filename|
    else if filename[i - 1] == '.' then i - 1
    else ExtFrom(filename, i - 1)
  }

  function RotatedName(filename: string, stamp: string): string {
    filename[..ExtStart(filename)] + "_" + stamp + filename[ExtStart(filename)..]
  }

  lemma {:induction false} ExtensionFrom(filename: string, i: nat)
    requires i <= |filename| && forall k | i <= k < |filename| :: filename[k] != '.' && filename[k] != '/'
    ensures var n := ExtFrom(filename, i);
      && (forall k | n < k < |filename| :: filename[k] != '.' && filename[k] != '/')
      && (n < |filename| ==> filename[n] == '.')
      && (n == |filename| ==> forall k | 0 <= k < |filename| && filename[k] == '.' ::
                                exists l :: k < l < |filename| && filename[l] == '/')
  {
    if i > 0 && filename[i - 1] == '/' {
      forall k | 0 <= k < |filename| && filename[k] == '.' ensures k < i - 1 < |filename| && filename[i - 1] == '/' {}
    } else if i > 0 && filename[i - 1] != '.' {
      ExtensionFrom(filename, i - 1);
    }
  }

  /** The rotated name puts the time between stem and extension: it stays in the
      log's directory and keeps its extension, which starts at the last dot of the
      last element, and is empty only if that has none. */
  lemma RotatedNameKeeps(filename: string, stamp: string)
    ensures var n := ExtStart(filename); var rotated := RotatedName(filename, stamp);
      && rotated[..n] == filename[..n] && rotated[n..n + 1 + |stamp|] == "_" + stamp
      && rotated[n + 1 + |stamp|..] == filename[n..]
      && (n < |filename| ==> filename[n] == '.')
      && (forall k | n < k < |filename| :: filename[k] != '.' && filename[k] != '/')
      && (n == |filename| ==> forall k | 0 <= k < |filename| && filename[k] == '.' ::
                                exists l :: k < l < |filename| && filename[l] == '/')
    ensures forall k | 0 <= k < |filename| && filename[k] == '/' ::
              RotatedName(filename, stamp)[..k + 1] == filename[..k + 1]
  {
    ExtensionFrom(filename, |filename|);
    var n, rotated := ExtStart(filename), RotatedName(filename, stamp);
    assert rotated[..n] == filename[..n];
    forall k | 0 <= k < |filename| && filename[k] == '/' ensures rotated[..k + 1] == filename[..k + 1] {
      assert k < n;
    }
  }

  /** Rotations at different times use different names, none the log's own. */
  lemma NamesDiffer(filename: string, s: string, t: string)
    ensures RotatedName(filename, s) != filename
    ensures RotatedName(filename, s) == RotatedName(filename, t) ==> s == t
  {
    var n := ExtStart(filename);
    assert |RotatedName(filename, s)| == |filename| + 1 + |s|;
    if RotatedName(filename, s) == RotatedName(filename, t) {
      assert s == RotatedName(filename, s)[n + 1..n + 1 + |s|];
      assert t == RotatedName(filename, t)[n + 1..n + 1 + |t|];
    }
  }

  /** Names, file contents, and the file the log descriptor refers to. */
  datatype Image = Image(names: map<string, Inode>, texts: map<Inode, Text>, fd: Inode) {
    /** The descriptor refers to the file `path` names, and no other name does. */
    predicate Linked(path: string) {
      && path in names && names[path] == fd
      && forall p | p in names :: names[p] in texts && (names[p] == fd ==> p == path)
    }

    function TextOf(path: string): Text {
      if path in names && names[path] in texts then texts[names[path]] else []
    }
  }

  /** How a rotation ended: with the log renamed away and a new file behind
      the descriptor; with everything as before; or with the log renamed away,
      the descriptor still on it, and the rename back refused. */
  datatype Ending = Rotated | Restored | Displaced

  function Refusals(ending: Ending): nat {
    match ending
    case Rotated => 0
    case Restored => 1
    case Displaced => 2
  }

  /** What a rotation guarantees: nothing that was logged is lost. On success
      the old file and then the new one hold the old bytes followed by those
      logged meanwhile; otherwise the one file behind the descriptor does, which
      `filename` names, or `rotated` if the rename back failed. Other files keep
      their names and texts, except one that was named `rotated`: unless nothing
      was renamed at all, it loses that name. */
  predicate Settles(a: Image, b: Image, filename: string, rotated: string, ending: Ending, during: Text) {
    && (if ending.Displaced? then b.Linked(rotated) else b.Linked(filename))
    && (match ending
        case Rotated =>
          && b.names.Keys == a.names.Keys + {rotated} && b.names[rotated] == a.fd
          && a.TextOf(filename) + during == b.TextOf(rotated) + b.TextOf(filename)
        case Restored =>
          && (b.names == a.names || b.names == a.names - {rotated}) && b.fd == a.fd
          && (rotated in b.names ==> b.TextOf(rotated) == a.TextOf(rotated))
          && a.TextOf(filename) + during == b.TextOf(filename)
        case Displaced =>
          && b.names.Keys - {filename} == a.names.Keys - {filename} + {rotated} && b.fd == a.fd
          && a.TextOf(filename) + during == b.TextOf(rotated))
    && (forall p | p in a.names && p != filename && p != rotated :: p in b.names && b.TextOf(p) == a.TextOf(p))
  }

  /** The log renamed, a new file linked, and the descriptor moved to it. */
  lemma SwappedSettles(a: Image, b: Image, filename: string, rotated: string, before: Text, after: Text)
    requires a.Linked(filename) && rotated != filename && b.fd !in a.texts
    requires b.names == (a.names - {filename})[rotated := a.fd][filename := b.fd]
    requires b.texts == a.texts[a.fd := a.texts[a.fd] + before][b.fd := after]
    ensures Settles(a, b, filename, rotated, Rotated, before + after)
  {
  }

  /** The descriptor kept, and the log's file grown. */
  predicate Kept(a: Image, b: Image, before: Text) {
    && b.fd == a.fd && a.fd in a.texts
    && forall i | i in a.texts :: i in b.texts && b.texts[i] == if i == a.fd then a.texts[i] + before else a.texts[i]
  }

  lemma RestoredSettles(a: Image, b: Image, filename: string, rotated: string, before: Text)
    requires a.Linked(filename) && rotated != filename && Kept(a, b, before)
    requires b.names == a.names || b.names == a.names - {rotated}
    ensures Settles(a, b, filename, rotated, Restored, before)
  {
  }

  lemma DisplacedSettles(a: Image, b: Image, filename: string, rotated: string, before: Text)
    requires a.Linked(filename) && rotated != filename && Kept(a, b, before)
    requires rotated in b.names && b.names[rotated] == a.fd
    requires filename in b.names ==> b.names[filename] !in a.texts && b.names[filename] in b.texts
    requires forall p | p in a.names && p != filename && p != rotated :: p in b.names && b.names[p] == a.names[p]
    requires forall p | p in b.names && p != filename && p != rotated :: p in a.names
    ensures Settles(a, b, filename, rotated, Displaced, before)
  {
    forall p | p in b.names ensures b.names[p] in b.texts && (b.names[p] == b.fd ==> p == rotated) {
      if p != filename && p != rotated {
        assert p in a.names && b.names[p] == a.names[p];
      }
    }
  }

  // ---- A whole run ----

  /** One log record, or one rotation at the given time. */
  datatype Event = Record(bytes: Text) | Rotation(stamp: string)

  /** Each record is logged as it is. */
  predicate Follows(events: seq<Event>, pieces: seq<Text>) {
    |pieces| <= |events| && forall i | 0 <= i < |pieces| && events[i].Record? :: pieces[i] == events[i].bytes
  }

  lemma FollowsMore(events: seq<Event>, pieces: seq<Text>, piece: Text)
    requires |pieces| < |events| && Follows(events, pieces)
    requires events[|pieces|].Record? ==> piece == events[|pieces|].bytes
    ensures Follows(events, pieces + [piece])
  {
  }

  lemma FlatMore(start: Text, pieces: seq<Text>, piece: Text)
    ensures start + Flat(pieces + [piece]) == (start + Flat(pieces)) + piece
  {
  }

  /** What becomes of a file that was rotated away: it stands under its name, or
      a rotation at a later event took the name. */
  datatype Fate = Stands | TakenAt(event: nat)

  /** A piece of the log that the rotation at event `at` put away. */
  datatype Segment = Segment(name: string, text: Text, at: nat, fate: Fate)

  function Texts(history: seq<Segment>): Text {
    if history == [] then [] else Texts(history[..|history| - 1]) + history[|history| - 1].text
  }

  /** The file that had the name loses it. */
  function Taken(history: seq<Segment>, name: string, event: nat): (h: seq<Segment>)
    ensures |h| == |history|
  {
    seq(|history|, i requires 0 <= i < |history| =>
      if history[i].fate.Stands? && history[i].name == name then history[i].(fate := TakenAt(event)) else history[i])
  }

  lemma {:induction false} TakenSameTexts(history: seq<Segment>, name: string, event: nat)
    ensures Texts(Taken(history, name, event)) == Texts(history)
    decreases |history|
  {
    if history != [] {
      var k := |history| - 1;
      TakenSameTexts(history[..k], name, event);
      assert Taken(history, name, event)[..k] == Taken(history[..k], name, event);
    }
  }

  /** The segments that stand are files of their own, untouched. */
  predicate Standing(image: Image, history: seq<Segment>, live: string) {
    && (forall i | 0 <= i < |history| && history[i].fate.Stands? ::
          && history[i].name in image.names && history[i].name != live
          && image.TextOf(history[i].name) == history[i].text)
    && (forall i, j | 0 <= i < j < |history| && history[i].fate.Stands? && history[j].fate.Stands? ::
          history[i].name != history[j].name)
  }

  /** The segments, oldest first, and then the live log are all that was logged. */
  predicate Told(image: Image, history: seq<Segment>, live: string, logged: Text) {
    image.Linked(live) && Standing(image, history, live) && Texts(history) + image.TextOf(live) == logged
  }

  lemma RecordStays(a: Image, b: Image, history: seq<Segment>, live: string, logged: Text, bytes: Text)
    requires Told(a, history, live, logged) && b == a.(texts := a.texts[a.fd := a.texts[a.fd] + bytes])
    ensures Told(b, history, live, logged + bytes)
  {
    assert (Texts(history) + a.TextOf(live)) + bytes == Texts(history) + (a.TextOf(live) + bytes);
  }

  /** The history after a rotation: nothing was renamed, or whatever had the
      rotated name lost it, and on success the log's file has it now. */
  function AfterRotation(history: seq<Segment>, b: Image, rotated: string, ending: Ending, event: nat): seq<Segment> {
    if ending.Restored? && rotated in b.names then history
    else
      Taken(history, rotated, event)
      + if ending.Rotated? then [Segment(rotated, b.TextOf(rotated), event, Stands)] else []
  }

  lemma RotatedStands(a: Image, b: Image, history: seq<Segment>, live: string, rotated: string, ending: Ending,
                      during: Text, event: nat)
    requires Standing(a, history, live) && a.Linked(live) && rotated != live
    requires Settles(a, b, live, rotated, ending, during)
    ensures Standing(b, AfterRotation(history, b, rotated, ending, event), if ending.Displaced? then rotated else live)
  {
    var h := AfterRotation(history, b, rotated, ending, event);
    forall i | 0 <= i < |h| && h[i].fate.Stands?
      ensures h[i].name in b.names && h[i].name != (if ending.Displaced? then rotated else live)
      ensures b.TextOf(h[i].name) == h[i].text
      ensures i < |history| ==> h[i] == history[i]
    {
      if i < |history| {
        assert h[i] == history[i] && h[i].name in a.names;
      }
    }
  }

  lemma TextsMore(history: seq<Segment>, last: Segment)
    ensures Texts(history + [last]) == Texts(history) + last.text
  {
    assert (history + [last])[..|history|] == history;
  }

  lemma RotatedTexts(b: Image, history: seq<Segment>, rotated: string, ending: Ending, event: nat)
    ensures Texts(AfterRotation(history, b, rotated, ending, event))
         == Texts(history) + if ending.Rotated? then b.TextOf(rotated) else []
  {
    TakenSameTexts(history, rotated, event);
    var before := Taken(history, rotated, event);
    assert before + [] == before && Texts(history) + [] == Texts(history);
    TextsMore(before, Segment(rotated, b.TextOf(rotated), event, Stands));
  }

  /** What is put away, what is live and what comes are joined in one order. */
  lemma Joined(told: Text, put: Text, now: Text, was: Text, during: Text)
    requires was + during == put + now
    ensures (told + was) + during == (told + put) + now
  {
    assert (told + was) + during == told + (was + during);
    assert (told + put) + now == told + (put + now);
  }

  lemma RotationStays(a: Image, b: Image, history: seq<Segment>, live: string, logged: Text, rotated: string,
                      ending: Ending, during: Text, event: nat)
    requires Told(a, history, live, logged) && rotated != live && Settles(a, b, live, rotated, ending, during)
    ensures Told(b, AfterRotation(history, b, rotated, ending, event), if ending.Displaced? then rotated else live,
                 logged + during)
  {
    RotatedStands(a, b, history, live, rotated, ending, during, event);
    RotatedTexts(b, history, rotated, ending, event);
    var name := if ending.Displaced? then rotated else live;
    var put := if ending.Rotated? then b.TextOf(rotated) else [];
    assert [] + b.TextOf(name) == b.TextOf(name);
    Joined(Texts(history), put, b.TextOf(name), a.TextOf(live), during);
  }

  /** The name that event `k` rotates to, if it is a rotation. */
  predicate Names(events: seq<Event>, lives: seq<string>, k: nat, name: string) {
    k < |events| && k < |lives| && events[k].Rotation? && name == RotatedName(lives[k], events[k].stamp)
  }

  /** The log keeps its name over event `k`, or takes that of its rotation. */
  predicate Renamed(events: seq<Event>, lives: seq<string>, k: nat)
    requires k + 1 < |lives|
  {
    lives[k + 1] == lives[k] || Names(events, lives, k, lives[k + 1])
  }

  /** `lives` are the names of the log before each event. */
  predicate Lineage(events: seq<Event>, lives: seq<string>) {
    forall k: nat | k + 1 < |lives| :: Renamed(events, lives, k)
  }

  /** Each segment has the name of its rotation, and has lost it only to a later
      rotation to the same name. */
  predicate Explained(events: seq<Event>, lives: seq<string>, history: seq<Segment>) {
    forall i | 0 <= i < |history| ::
      && Names(events, lives, history[i].at, history[i].name)
      && (history[i].fate.TakenAt? ==>
            history[i].at < history[i].fate.event && Names(events, lives, history[i].fate.event, history[i].name))
  }

  /** The names the log has had, and those of the rotations. */
  function Used(events: seq<Event>, lives: seq<string>): set<string> {
    if lives == [] then {}
    else
      var k := |lives| - 1;
      Used(events, lives[..k]) + {lives[k]}
      + if k < |events| && events[k].Rotation? then {RotatedName(lives[k], events[k].stamp)} else {}
  }

  /** Every other file is left alone. */
  predicate Spared(a: Image, b: Image, used: set<string>) {
    forall p | p in a.names && p !in used :: p in b.names && b.TextOf(p) == a.TextOf(p)
  }

  /** All times differ, and are written with the same number of characters. */
  predicate Timed(events: seq<Event>) {
    forall j, k | 0 <= j < k < |events| && events[j].Rotation? && events[k].Rotation? ::
      events[j].stamp != events[k].stamp && |events[j].stamp| == |events[k].stamp|
  }

  lemma {:induction false} NamesGrow(events: seq<Event>, lives: seq<string>, j: nat, k: nat)
    requires Lineage(events, lives) && j <= k < |lives|
    ensures lives[j] == lives[k] || |lives[j]| < |lives[k]|
    decreases k - j
  {
    if j < k {
      NamesGrow(events, lives, j, k - 1);
      assert Renamed(events, lives, k - 1);
    }
  }

  /** Then no two rotations use one name, whatever the log is called by then. */
  lemma NamesNeverMeet(events: seq<Event>, lives: seq<string>, j: nat, k: nat, name: string)
    requires Timed(events) && Lineage(events, lives) && j < k
    requires Names(events, lives, j, name)
    ensures !Names(events, lives, k, name)
  {
    if Names(events, lives, k, name) {
      NamesGrow(events, lives, j, k);
      assert |name| == |lives[j]| + 1 + |events[j].stamp| == |lives[k]| + 1 + |events[k].stamp|;
      NamesDiffer(lives[j], events[j].stamp, events[k].stamp);
    }
  }

  lemma NothingIsTaken(events: seq<Event>, lives: seq<string>, history: seq<Segment>)
    requires Timed(events) && Lineage(events, lives) && Explained(events, lives, history)
    ensures forall i | 0 <= i < |history| :: history[i].fate.Stands?
  {
    forall i | 0 <= i < |history| ensures history[i].fate.Stands? {
      if history[i].fate.TakenAt? {
        NamesNeverMeet(events, lives, history[i].at, history[i].fate.event, history[i].name);
      }
    }
  }

  lemma NamesMore(events: seq<Event>, lives: seq<string>, live: string)
    ensures forall k: nat, name | Names(events, lives, k, name) :: Names(events, lives + [live], k, name)
  {
  }

  lemma LineageMore(events: seq<Event>, lives: seq<string>, live: string)
    requires lives != [] && Lineage(events, lives)
    requires live == lives[|lives| - 1] || Names(events, lives, |lives| - 1, live)
    ensures Lineage(events, lives + [live])
  {
    NamesMore(events, lives, live);
    forall k: nat | k < |lives| ensures Renamed(events, lives + [live], k) {
      if k < |lives| - 1 { assert Renamed(events, lives, k); }
    }
  }

  /** One more event keeps the account. */
  lemma ExplainedMore(events: seq<Event>, lives: seq<string>, live: string, history: seq<Segment>, b: Image,
                      rotated: string, ending: Ending)
    requires lives != [] && Explained(events, lives, history) && Names(events, lives, |lives| - 1, rotated)
    requires forall i | 0 <= i < |history| :: history[i].at < |lives| - 1
    ensures var h := AfterRotation(history, b, rotated, ending, |lives| - 1);
      Explained(events, lives + [live], h) && forall i | 0 <= i < |h| :: h[i].at < |lives|
  {
    NamesMore(events, lives, live);
    var h := AfterRotation(history, b, rotated, ending, |lives| - 1);
    forall i | 0 <= i < |h|
      ensures Names(events, lives, h[i].at, h[i].name)
      ensures h[i].fate.TakenAt? ==>
                h[i].at < h[i].fate.event && Names(events, lives, h[i].fate.event, h[i].name)
    {
      if i < |history| {
        assert h[i] == history[i] || h[i] == history[i].(fate := TakenAt(|lives| - 1));
      }
    }
  }

  lemma UsedMore(events: seq<Event>, lives: seq<string>, live: string)
    requires lives != []
    ensures lives[|lives| - 1] in Used(events, lives) && Used(events, lives) <= Used(events, lives + [live])
    ensures forall name | Names(events, lives, |lives| - 1, name) :: name in Used(events, lives)
  {
    assert (lives + [live])[..|lives|] == lives;
  }

  lemma SparedByRotation(start: Image, a: Image, b: Image, used: set<string>, more: set<string>, live: string,
                         rotated: string, ending: Ending, during: Text)
    requires Spared(start, a, used) && {live, rotated} <= used <= more
    requires Settles(a, b, live, rotated, ending, during)
    ensures Spared(start, b, more)
  {
    forall p | p in start.names && p !in more ensures p in b.names && b.TextOf(p) == start.TextOf(p) {
      assert p in a.names && a.TextOf(p) == start.TextOf(p);
    }
  }

  lemma SparedByRecord(start: Image, a: Image, b: Image, used: set<string>, more: set<string>, live: string,
                       bytes: Text)
    requires Spared(start, a, used) && live in used && used <= more && a.Linked(live)
    requires b == a.(texts := a.texts[a.fd := a.texts[a.fd] + bytes])
    ensures Spared(start, b, more)
  {
  }

  /** Something was logged right before event `k`. */
  predicate Loud(events: seq<Event>, k: nat) {
    0 < k <= |events| && events[k - 1].Record? && events[k - 1].bytes != []
  }

  /** Event `k` put a segment away. */
  predicate PutAway(history: seq<Segment>, k: nat) {
    exists i :: 0 <= i < |history| && history[i].at == k
  }

  /** Each rotation up to `n` that had something to put away did so. */
  predicate Prompt(events: seq<Event>, history: seq<Segment>, n: nat) {
    forall k: nat | k < n && Loud(events, k) && k < |events| && events[k].Rotation? :: PutAway(history, k)
  }

  lemma PromptMore(events: seq<Event>, history: seq<Segment>, b: Image, live: string, ending: Ending, n: nat)
    requires n < |events| && Prompt(events, history, n)
    requires events[n].Rotation? && Loud(events, n) ==> ending.Rotated?
    ensures Prompt(events, AfterEvent(history, b, events[n], live, ending, n), n + 1)
  {
    var h := AfterEvent(history, b, events[n], live, ending, n);
    forall k: nat | k < n + 1 && Loud(events, k) && k < |events| && events[k].Rotation? ensures PutAway(h, k) {
      if k < n {
        var i :| 0 <= i < |history| && history[i].at == k;
        assert h[i].at == k;
      } else {
        assert h[|h| - 1].at == n;
      }
    }
  }

  /** Where a run stands after as many events as `lives` has names but one;
      `was` is the image it started from. */
  ghost predicate Account(was: Image, now: Image, events: seq<Event>, lives: seq<string>, history: seq<Segment>,
                          logged: Text)
  {
    && lives != [] && Lineage(events, lives) && Told(now, history, lives[|lives| - 1], logged)
    && Explained(events, lives, history) && Spared(was, now, Used(events, lives))
    && forall i | 0 <= i < |history| :: history[i].at < |lives| - 1
  }

  lemma AccountStarts(was: Image, events: seq<Event>, live: string)
    requires was.Linked(live)
    ensures Account(was, was, events, [live], [], was.TextOf(live))
  {
    assert Texts([]) + was.TextOf(live) == was.TextOf(live);
  }

  lemma RecordKeepsAccount(was: Image, a: Image, b: Image, events: seq<Event>, lives: seq<string>,
                           history: seq<Segment>, logged: Text, bytes: Text)
    requires Account(was, a, events, lives, history, logged)
    requires b == a.(texts := a.texts[a.fd := a.texts[a.fd] + bytes])
    ensures Account(was, b, events, lives + [lives[|lives| - 1]], history, logged + bytes)
  {
    RecordStays(a, b, history, lives[|lives| - 1], logged, bytes);
    var live := lives[|lives| - 1];
    LineageMore(events, lives, live);
    NamesMore(events, lives, live);
    UsedMore(events, lives, live);
    SparedByRecord(was, a, b, Used(events, lives), Used(events, lives + [live]), live, bytes);
  }

  lemma RotationKeepsAccount(was: Image, a: Image, b: Image, events: seq<Event>, lives: seq<string>,
                             history: seq<Segment>, logged: Text, rotated: string, ending: Ending, during: Text,
                             live: string, h: seq<Segment>)
    requires Account(was, a, events, lives, history, logged) && Names(events, lives, |lives| - 1, rotated)
    requires rotated != lives[|lives| - 1] && Settles(a, b, lives[|lives| - 1], rotated, ending, during)
    requires live == (if ending.Displaced? then rotated else lives[|lives| - 1])
    requires h == AfterRotation(history, b, rotated, ending, |lives| - 1)
    ensures Account(was, b, events, lives + [live], h, logged + during)
  {
    assert (lives + [live])[|lives|] == live;
    assert Told(b, h, live, logged + during) by {
      RotationStays(a, b, history, lives[|lives| - 1], logged, rotated, ending, during, |lives| - 1);
    }
    assert Lineage(events, lives + [live]) by { LineageMore(events, lives, live); }
    assert Explained(events, lives + [live], h) && forall i | 0 <= i < |h| :: h[i].at < |lives| by {
      ExplainedMore(events, lives, live, history, b, rotated, ending);
    }
    assert Spared(was, b, Used(events, lives + [live])) by {
      UsedMore(events, lives, live);
      SparedByRotation(was, a, b, Used(events, lives), Used(events, lives + [live]), lives[|lives| - 1], rotated,
                       ending, during);
    }
  }

  /** What one event does to the files: `live` is the log's name before it and
      `name` after it. */
  predicate Turned(a: Image, b: Image, event: Event, live: string, name: string, piece: Text, ending: Ending) {
    match event
    case Record(bytes) =>
      name == live && piece == bytes && a.fd in a.texts && b == a.(texts := a.texts[a.fd := a.texts[a.fd] + bytes])
    case Rotation(stamp) =>
      && RotatedName(live, stamp) != live && Settles(a, b, live, RotatedName(live, stamp), ending, piece)
      && name == if ending.Displaced? then RotatedName(live, stamp) else live
  }

  function AfterEvent(history: seq<Segment>, b: Image, event: Event, live: string, ending: Ending, at: nat)
      : seq<Segment>
  {
    match event
    case Record(_) => history
    case Rotation(stamp) => AfterRotation(history, b, RotatedName(live, stamp), ending, at)
  }

  lemma EventKeepsAccount(was: Image, a: Image, b: Image, events: seq<Event>, lives: seq<string>,
                          history: seq<Segment>, logged: Text, name: string, piece: Text, ending: Ending,
                          h: seq<Segment>)
    requires Account(was, a, events, lives, history, logged) && |lives| <= |events|
    requires Turned(a, b, events[|lives| - 1], lives[|lives| - 1], name, piece, ending)
    requires h == AfterEvent(history, b, events[|lives| - 1], lives[|lives| - 1], ending, |lives| - 1)
    ensures Account(was, b, events, lives + [name], h, logged + piece)
  {
    var live := lives[|lives| - 1];
    match events[|lives| - 1] {
      case Record(bytes) => RecordKeepsAccount(was, a, b, events, lives, history, logged, bytes);
      case Rotation(stamp) =>
        var rotated := RotatedName(live, stamp);
        RotationKeepsAccount(was, a, b, events, lives, history, logged, rotated, ending, piece, name, h);
    }
  }

  /** With no call refused, event `n` keeps the log's name and puts away what was
      logged before; `idle` says that nothing has been written since the log was
      opened. */
  lemma EventServed(a: Image, b: Image, events: seq<Event>, history: seq<Segment>, live: string, name: string,
                    piece: Text, ending: Ending, h: seq<Segment>, idle: bool, n: nat)
    requires n < |events| && Turned(a, b, events[n], live, name, piece, ending)
    requires h == AfterEvent(history, b, events[n], live, ending, n)
    requires events[n].Rotation? ==> if idle then ending.Restored? else ending.Rotated?
    requires Loud(events, n) ==> !idle
    ensures name == live && (Prompt(events, history, n) ==> Prompt(events, h, n + 1))
  {
    assert name == live;
    if Prompt(events, history, n) { PromptMore(events, history, b, live, ending, n); }
  }

  /** `fd` is what standard output refers to, `err` what standard error does.
      `offset` is the position of standard output, which stands at the end of the
      file once something was written; `refused` counts the calls that failed. */
  class Files {
    var names: map<string, Inode>
    var texts: map<Inode, Text>
    var fd: Inode
    var err: Inode
    var offset: nat
    ghost var refused: nat

    constructor (names: map<string, Inode>, texts: map<Inode, Text>, fd: Inode, err: Inode, offset: nat)
      ensures this.names == names && this.texts == texts && this.fd == fd && this.err == err
      ensures this.offset == offset && refused == 0
    {
      this.names, this.texts, this.fd, this.err, this.offset := names, texts, fd, err, offset;
      refused := 0;
    }

    function Now(): Image
      reads this
    {
      Image(names, texts, fd)
    }

    /** A log record; any goroutine may write one between two steps. */
    method Write(bytes: Text)
      requires fd in texts
      modifies this`texts, this`offset
      ensures texts == old(texts)[fd := old(texts)[fd] + bytes]
      ensures offset > 0 <==> old(offset) > 0 || bytes != []
    {
      texts := texts[fd := texts[fd] + bytes];
      if bytes != [] {
        offset := |texts[fd]|;
      }
    }

    method WriteErr(bytes: Text)
      requires err in texts
      modifies this`texts
      ensures texts == old(texts)[err := old(texts)[err] + bytes]
    {
      texts := texts[err := texts[err] + bytes];
    }

    /** `Dup` and `ReplaceFD`: standard error refers to what standard output does. */
    method FollowErr()
      modifies this`err
      ensures err == fd
    {
      err := fd;
    }

    /** Whether a call works that nothing speaks against. */
    method Granted() returns (ok: bool)
      modifies this`refused
      ensures refused == old(refused) + if ok then 0 else 1
    {
      ok := *;
      if !ok { refused := refused + 1; }
    }

    method Rename(from: string, to: string) returns (ok: bool)
      requires from in names
      modifies this`names, this`refused
      ensures names == if ok then (old(names) - {from})[to := old(names)[from]] else old(names)
      ensures refused == old(refused) + if ok then 0 else 1
    {
      ok := Granted();
      if ok {
        names := (names - {from})[to := names[from]];
      }
    }

    /** Creates the file when the name is free. */
    method Open(path: string) returns (ok: bool, ino: Inode)
      modifies this`names, this`texts, this`refused
      ensures refused == old(refused) + if ok then 0 else 1
      ensures !ok ==> names == old(names) && texts == old(texts)
      ensures ok && path in old(names) ==> names == old(names) && texts == old(texts) && ino == names[path]
      ensures ok && path !in old(names) ==>
                ino !in old(texts) && ino != fd && names == old(names)[path := ino] && texts == old(texts)[ino := []]
    {
      ok := Granted();
      ino := 0;
      if path in names {
        ino := names[path];
      } else if ok {
        ghost var unused := FreshNumber(texts.Keys + {fd});
        ino :| ino !in texts && ino != fd;
        names, texts := names[path := ino], texts[ino := []];
      }
    }

    method Sync() returns (ok: bool)
      modifies this`refused
      ensures refused == old(refused) + if ok then 0 else 1
    {
      ok := Granted();
    }

    /** The new description stands at its start. */
    method ReplaceFD(ino: Inode) returns (ok: bool)
      modifies this`fd, this`offset, this`refused
      ensures fd == (if ok then ino else old(fd)) && offset == (if ok then 0 else old(offset))
      ensures refused == old(refused) + if ok then 0 else 1
    {
      ok := Granted();
      if ok {
        fd, offset := ino, 0;
      }
    }
  }

  class Rotator {
    const files: Files

    constructor (files: Files)
      ensures this.files == files
    {
      this.files := files;
    }

    /** Other goroutines log whatever they like. */
    method Interleave() returns (bytes: Text)
      requires files.fd in files.texts
      modifies files`texts, files`offset
      ensures files.texts == old(files.texts)[files.fd := old(files.texts)[files.fd] + bytes]
    {
      bytes := *;
      files.Write(bytes);
    }

    /** Opens the new file and puts it behind the descriptor. On failure the
        new file may exist, but nothing was written to it. */
    method Swap(filename: string) returns (ok: bool, before: Text, after: Text)
      requires filename !in files.names && files.fd in files.texts
      modifies files`names, files`texts, files`fd, files`offset, files`refused
      ensures files.refused == old(files.refused) + if ok then 0 else 1
      ensures ok ==> files.fd !in old(files.texts) && files.names == old(files.names)[filename := files.fd]
      ensures ok ==>
                files.texts == old(files.texts)[old(files.fd) := old(files.texts[files.fd]) + before][files.fd := after]
      ensures !ok ==> files.fd == old(files.fd) && after == []
      ensures !ok ==> forall p | p in old(files.names) :: p in files.names && files.names[p] == old(files.names)[p]
      ensures !ok ==> forall p | p in files.names && p != filename :: p in old(files.names)
      ensures !ok && filename in files.names ==>
                files.names[filename] !in old(files.texts) && files.names[filename] in files.texts
      ensures !ok ==> forall i | i in old(files.texts) ::
                && i in files.texts
                && files.texts[i] == if i == files.fd then old(files.texts)[i] + before else old(files.texts)[i]
    {
      after := [];
      before := Interleave();
      var ino;
      ok, ino := files.Open(filename);
      if ok {
        ok := files.Granted();
        if ok {
          ok := files.Sync();
        }
        ghost var fd0 := files.fd;
        var more := Interleave();
        assert files.texts[fd0] == old(files.texts[files.fd]) + (before + more);
        before := before + more;
        if ok {
          ok := files.ReplaceFD(ino);
          if ok {
            after := Interleave();
            assert [] + after == after;
          }
        }
      }
    }

    /** How a rotation ends is a matter of how many of its calls are refused: one
        is undone, and the second can only be the rename back. */
    method RotateFile(filename: string, stamp: string) returns (ending: Ending, during: Text)
      requires files.Now().Linked(filename)
      modifies files`names, files`texts, files`fd, files`offset, files`refused
      ensures files.refused == old(files.refused) + Refusals(ending)
      ensures Settles(old(files.Now()), files.Now(), filename, RotatedName(filename, stamp), ending, during)
    {
      var rotated := RotatedName(filename, stamp);
      NamesDiffer(filename, stamp, stamp);
      ghost var a := files.Now();
      var ok := files.Rename(filename, rotated);
      if ok {
        ending, during := Replace(filename, rotated, a);
      } else {
        ending, during := Restored, [];
        RestoredSettles(a, files.Now(), filename, rotated, []);
      }
    }

    /** The rest of a rotation, once the log has been renamed. */
    method Replace(filename: string, rotated: string, ghost a: Image) returns (ending: Ending, during: Text)
      requires a.Linked(filename) && rotated != filename
      requires files.Now() == a.(names := (a.names - {filename})[rotated := a.fd])
      modifies files`names, files`texts, files`fd, files`offset, files`refused
      ensures files.refused == old(files.refused) + Refusals(ending)
      ensures Settles(a, files.Now(), filename, rotated, ending, during)
    {
      var ok, before, after := Swap(filename);
      during := before + after;
      if ok {
        SwappedSettles(a, files.Now(), filename, rotated, before, after);
        return Rotated, during;
      }
      assert during == before && Kept(a, files.Now(), before);
      ghost var names := files.names;
      ok := files.Rename(rotated, filename);
      if ok {
        ending := Restored;
        RenamedBack(a, names, filename, rotated);
        RestoredSettles(a, files.Now(), filename, rotated, before);
      } else {
        ending := Displaced;
        DisplacedSettles(a, files.Now(), filename, rotated, before);
      }
    }

    lemma RenamedBack(a: Image, names: map<string, Inode>, filename: string, rotated: string)
      requires a.Linked(filename) && rotated != filename && rotated in names && names[rotated] == a.fd
      requires forall p | p in a.names && p != filename && p != rotated :: p in names && names[p] == a.names[p]
      requires forall p | p in names && p != filename && p != rotated :: p in a.names
      ensures (names - {rotated})[filename := names[rotated]] == a.names - {rotated}
      ensures rotated !in a.names ==> a.names - {rotated} == a.names
    {
    }

    /** Rotation when both standard streams log to one file: standard error
        follows by duplication, in a step of its own. What it logs in between
        (`late`) goes to the archived file, behind `archived`; and when the
        duplication or the swap fails, it stays there for good. */
    method RotateShared(filename: string, stamp: string)
        returns (ending: Ending, followed: bool, during: Text, ghost archived: Text, late: Text)
      requires files.Now().Linked(filename) && files.err == files.fd
      modifies files
      ensures old(files.offset) == 0 ==>
                files.Now() == old(files.Now()) && files.err == old(files.err) && ending.Restored?
      ensures old(files.offset) > 0 ==>
                files.refused == old(files.refused) + Refusals(ending) + if ending.Rotated? && !followed then 1 else 0
      ensures files.Now().Linked(if ending.Displaced? then RotatedName(filename, stamp) else filename)
      ensures files.err == files.fd <==> !ending.Rotated? || followed
      ensures ending.Rotated? ==>
                var rotated := RotatedName(filename, stamp); var now := files.Now();
                && rotated in now.names && (!followed ==> files.err == now.names[rotated])
                && now.TextOf(rotated) == archived + late
                && archived + now.TextOf(filename) == old(files.Now().TextOf(filename)) + during
      ensures ending.Restored? ==> files.Now().TextOf(filename) == old(files.Now().TextOf(filename)) + during
    {
      followed, during, archived, late := false, [], [], [];
      if files.offset == 0 {
        assert files.Now().TextOf(filename) + [] == files.Now().TextOf(filename);
        return Restored, followed, during, archived, late;
      }
      ending, during := RotateFile(filename, stamp);
      if ending.Rotated? {
        archived := files.Now().TextOf(RotatedName(filename, stamp));
        late := *;
        files.WriteErr(late);
        followed := files.Granted();
        if followed {
          files.FollowErr();
        }
      }
    }

    /** One event. A rotation is left out while nothing has been logged. */
    method Turn(event: Event, live: string) returns (name: string, piece: Text, ending: Ending)
      requires files.Now().Linked(live)
      modifies files`names, files`texts, files`fd, files`offset, files`refused
      ensures Turned(old(files.Now()), files.Now(), event, live, name, piece, ending)
      ensures event.Record? ==> files.refused == old(files.refused) && ending.Restored?
      ensures event.Record? && event.bytes != [] ==> files.offset > 0
      ensures event.Rotation? && old(files.offset) == 0 ==>
                files.Now() == old(files.Now()) && ending.Restored? && files.refused == old(files.refused)
      ensures event.Rotation? && old(files.offset) > 0 ==> files.refused == old(files.refused) + Refusals(ending)
    {
      name, ending := live, Restored;
      match event {
        case Record(bytes) =>
          files.Write(bytes);
          piece := bytes;
        case Rotation(stamp) =>
          NamesDiffer(live, stamp, stamp);
          if files.offset == 0 {
            piece := [];
            RestoredSettles(files.Now(), files.Now(), live, RotatedName(live, stamp), []);
          } else {
            ending, piece := RotateFile(live, stamp);
            name := if ending.Displaced? then RotatedName(live, stamp) else live;
          }
      }
    }

    /** The next event, with its effect on the account. */
    method ServeOne(ghost was: Image, events: seq<Event>, lives: seq<string>, ghost history: seq<Segment>,
                    ghost logged: Text)
        returns (name: string, piece: Text, ghost h: seq<Segment>)
      requires 0 < |lives| <= |events| && Account(was, files.Now(), events, lives, history, logged)
      requires Loud(events, |lives| - 1) ==> files.offset > 0
      modifies files`names, files`texts, files`fd, files`offset, files`refused
      ensures Account(was, files.Now(), events, lives + [name], h, logged + piece)
      ensures events[|lives| - 1].Record? ==> piece == events[|lives| - 1].bytes
      ensures Loud(events, |lives|) ==> files.offset > 0
      ensures files.refused >= old(files.refused)
      ensures files.refused == old(files.refused) ==>
                name == lives[|lives| - 1] && (Prompt(events, history, |lives| - 1) ==> Prompt(events, h, |lives|))
    {
      ghost var a, k, idle := files.Now(), |lives| - 1, files.offset == 0;
      var ending;
      name, piece, ending := Turn(events[|lives| - 1], lives[|lives| - 1]);
      h := AfterEvent(history, files.Now(), events[k], lives[k], ending, k);
      EventKeepsAccount(was, a, files.Now(), events, lives, history, logged, name, piece, ending, h);
      if files.refused == old(files.refused) {
        EventServed(a, files.Now(), events, history, lives[k], name, piece, ending, h, idle, k);
      }
    }

    /** A run of records and rotations. `pieces` are the bytes logged by each
        event, `lives` the names of the log, which each rotation looks up anew.
        Whatever names the rotations take and whichever steps fail, the segments
        put away and then the live log are all that was logged, in order. A
        segment is a file of its own until a later rotation takes its name; with
        different times none does. If no call is refused, the log keeps its name,
        and what was logged right before a rotation is put away by it. */
    method Serve(filename: string, events: seq<Event>)
        returns (lives: seq<string>, pieces: seq<Text>, ghost history: seq<Segment>)
      requires files.Now().Linked(filename)
      modifies files`names, files`texts, files`fd, files`offset, files`refused
      ensures |pieces| == |events| && Follows(events, pieces)
      ensures |lives| == |events| + 1 && lives[0] == filename && Lineage(events, lives)
      ensures files.refused == old(files.refused) ==> lives[|events|] == filename && Prompt(events, history, |events|)
      ensures Told(files.Now(), history, lives[|events|], old(files.Now().TextOf(filename)) + Flat(pieces))
      ensures Explained(events, lives, history) && Spared(old(files.Now()), files.Now(), Used(events, lives))
      ensures Timed(events) ==> forall i | 0 <= i < |history| :: history[i].fate.Stands?
    {
      lives, pieces, history := ServeAll(filename, events);
      if Timed(events) {
        NothingIsTaken(events, lives, history);
      }
    }

    method ServeAll(filename: string, events: seq<Event>)
        returns (lives: seq<string>, pieces: seq<Text>, ghost history: seq<Segment>)
      requires files.Now().Linked(filename)
      modifies files`names, files`texts, files`fd, files`offset, files`refused
      ensures |pieces| == |events| && Follows(events, pieces) && |lives| == |events| + 1 && lives[0] == filename
      ensures files.refused == old(files.refused) ==> lives[|events|] == filename && Prompt(events, history, |events|)
      ensures Account(old(files.Now()), files.Now(), events, lives, history,
                      old(files.Now().TextOf(filename)) + Flat(pieces))
    {
      lives, pieces, history := [filename], [], [];
      ghost var was := files.Now();
      ghost var logged := was.TextOf(filename);
      AccountStarts(was, events, filename);
      assert logged + Flat(pieces) == logged;
      while |pieces| < |events|
        invariant |pieces| <= |events| && Follows(events, pieces)
        invariant |lives| == |pieces| + 1 && lives[0] == filename
        invariant logged == was.TextOf(filename) + Flat(pieces)
        invariant Account(was, files.Now(), events, lives, history, logged)
        invariant files.refused >= old(files.refused)
        invariant files.refused == old(files.refused) ==>
                    lives[|pieces|] == filename && Prompt(events, history, |pieces|)
        invariant Loud(events, |pieces|) ==> files.offset > 0
      {
        var name, piece;
        ghost var h;
        name, piece, h := ServeOne(was, events, lives, history, logged);
        FollowsMore(events, pieces, piece);
        FlatMore(was.TextOf(filename), pieces, piece);
        lives, pieces, history, logged := lives + [name], pieces + [piece], h, logged + piece;
      }
    }
  }
}
