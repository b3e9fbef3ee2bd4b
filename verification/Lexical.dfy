/** Cleaning of relative paths by their text alone, as `filepath` does it. */
module Lexical {
  import opened Tree

  /** One step of cleaning: `.` is dropped, and `..` takes away the last name. */
  function Push(cleaned: Path, part: Name): Path {
    if part == "" || part == "." then cleaned
    else if part == ".." && cleaned != [] && cleaned[|cleaned| - 1] != ".." then cleaned[..|cleaned| - 1]
    else cleaned + [part]
  }

  function CleanParts(parts: Path): Path {
    if parts == [] then [] else Push(CleanParts(parts[..|parts| - 1]), parts[|parts| - 1])
  }

  /** The components of a cleaned relative path; none for `.`. */
  function Clean(path: string): Path {
    CleanParts(Components(path))
  }

  predicate Rooted(path: string) {
    path != "" && path[0] == '/'
  }

  /** Above the root of everything there is nothing to go up to. */
  function PushRooted(cleaned: Path, part: Name): Path {
    if part == ".." && cleaned == [] then cleaned else Push(cleaned, part)
  }

  function CleanRooted(parts: Path): Path {
    if parts == [] then [] else PushRooted(CleanRooted(parts[..|parts| - 1]), parts[|parts| - 1])
  }

  /** The components of any cleaned path. */
  function Cleaned(path: string): Path {
    if Rooted(path) then CleanRooted(Components(path)) else Clean(path)
  }

  /** The path is relative, not empty, and stays inside the directory it is
      taken from. */
  predicate IsLocal(path: string) {
    path != "" && !Rooted(path) && (Clean(path) == [] || Clean(path)[0] != "..")
  }

  lemma LastIsName(c: Path, ups: nat)
    requires ups < |c| && Plain(c[ups..])
    ensures c[|c| - 1] != ".."
  {
  }

  ghost predicate Shaped(c: Path, ups: nat) {
    ups <= |c| && (forall i | 0 <= i < ups :: c[i] == "..") && Plain(c[ups..])
  }

  lemma PushShape(c: Path, ups: nat, part: Name) returns (more: nat)
    requires Shaped(c, ups)
    ensures Shaped(Push(c, part), more)
    ensures more == if part == ".." && ups == |c| then ups + 1 else ups
  {
    more := ups;
    if part == ".." {
      if c == [] || c[|c| - 1] == ".." {
        if ups < |c| {
          LastIsName(c, ups);
          assert false;
        }
        more := ups + 1;
      } else {
        assert c[..|c| - 1][ups..] == c[ups..][..|c| - 1 - ups];
      }
    } else if part != "" && part != "." {
      assert (c + [part])[ups..] == c[ups..] + [part];
    }
  }

  /** A cleaned path is some `..` followed by names. */
  lemma {:induction false} CleanShape(parts: Path) returns (ups: nat)
    ensures ups <= |CleanParts(parts)|
    ensures forall i | 0 <= i < ups :: CleanParts(parts)[i] == ".."
    ensures Plain(CleanParts(parts)[ups..])
  {
    ups := 0;
    if parts != [] {
      ups := CleanShape(parts[..|parts| - 1]);
      ups := PushShape(CleanParts(parts[..|parts| - 1]), ups, parts[|parts| - 1]);
    }
  }

  /** So a local path has no `..` left once it is cleaned. */
  lemma LocalIsPlain(path: string)
    requires IsLocal(path)
    ensures Plain(Clean(path))
  {
    var ups := CleanShape(Components(path));
    assert ups == 0;
    assert Clean(path)[0..] == Clean(path);
  }

  // ---- Where a path leads ----

  /** One step from a directory: `.` stays, `..` goes to the parent. */
  function Go(cur: Path, part: Name): Path {
    if part == "" || part == "." then cur else if part == ".." then Parent(cur) else cur + [part]
  }

  /** The directory reached from `base`, one component after the other. */
  function Follow(base: Path, parts: Path): Path {
    if parts == [] then base else Go(Follow(base, parts[..|parts| - 1]), parts[|parts| - 1])
  }

  lemma FollowMore(base: Path, parts: Path, part: Name)
    ensures Follow(base, parts + [part]) == Go(Follow(base, parts), part)
  {
    assert (parts + [part])[..|parts + [part]| - 1] == parts;
  }

  lemma PushLeadsOn(base: Path, c: Path, ups: nat, part: Name)
    requires Shaped(c, ups)
    ensures Follow(base, Push(c, part)) == Go(Follow(base, c), part)
  {
    if part != "" && part != "." {
      if part == ".." && c != [] && c[|c| - 1] != ".." {
        var front, last := c[..|c| - 1], c[|c| - 1];
        assert ups < |c| && last == c[ups..][|c| - 1 - ups];
        assert Follow(base, c) == Follow(base, front) + [last];
      } else {
        FollowMore(base, c, part);
      }
    }
  }

  /** Cleaning by the text does not change where a path leads, from whichever
      directory it is followed. */
  lemma {:induction false} CleaningLeadsThere(base: Path, parts: Path)
    ensures Follow(base, CleanParts(parts)) == Follow(base, parts)
  {
    if parts != [] {
      var front := parts[..|parts| - 1];
      CleaningLeadsThere(base, front);
      var ups := CleanShape(front);
      PushLeadsOn(base, CleanParts(front), ups, parts[|parts| - 1]);
    }
  }

  lemma {:induction false} NamesLeadDown(base: Path, names: Path)
    requires Plain(names)
    ensures Follow(base, names) == base + names
    decreases |names|
  {
    if names == [] {
      assert base + names == base;
    } else {
      var front := names[..|names| - 1];
      NamesLeadDown(base, front);
      assert base + front + [names[|names| - 1]] == base + names;
    }
  }

  /** A local path leads from any directory to what its cleaned components name
      below it. */
  lemma LocalLeadsDown(base: Path, path: string)
    requires IsLocal(path)
    ensures Follow(base, Components(path)) == base + Clean(path)
  {
    LocalIsPlain(path);
    NamesLeadDown(base, Clean(path));
    CleaningLeadsThere(base, Components(path));
  }

  /** From the top, going up stays at the top: an absolute path leads to what
      its cleaned components name. */
  lemma {:induction false} RootedLeadsThere(parts: Path)
    ensures Follow([], parts) == CleanRooted(parts)
  {
    if parts != [] {
      var front := parts[..|parts| - 1];
      RootedLeadsThere(front);
      RootedIsPlain(front);
    }
  }

  /** How far below the start a component leads: one down for a name, one up for
      `..`. */
  function Descent(part: Name): int {
    if part == "" || part == "." then 0 else if part == ".." then -1 else 1
  }

  /** How far below the start each prefix of the components leads. */
  function Depths(parts: Path): (d: seq<int>)
    ensures |d| == |parts| + 1
  {
    if parts == [] then [0]
    else
      var before := Depths(parts[..|parts| - 1]);
      before + [before[|parts| - 1] + Descent(parts[|parts| - 1])]
  }

  /** The way never leads more than `ups` above its start, but so far once. */
  predicate Reaches(d: seq<int>, ups: nat) {
    && (forall k | 0 <= k < |d| :: d[k] + ups >= 0)
    && (exists k :: 0 <= k < |d| && d[k] + ups == 0)
  }

  lemma ReachesMore(d: seq<int>, last: int, before: nat, ups: nat)
    requires d != [] && Reaches(d, before) && last >= d[|d| - 1] - 1
    requires ups == if last + before < 0 then before + 1 else before
    ensures Reaches(d + [last], ups)
  {
    var more := d + [last];
    if ups == before {
      var k :| 0 <= k < |d| && d[k] + before == 0;
      assert more[k] + ups == 0;
    } else {
      assert more[|d|] + ups == 0;
    }
  }

  /** Cleaned components go up as often as the way leads above its start, and
      then down to where it ends. */
  lemma {:induction false} CleaningBalances(parts: Path) returns (ups: nat)
    ensures Shaped(CleanParts(parts), ups) && Reaches(Depths(parts), ups)
    ensures |CleanParts(parts)| == Depths(parts)[|parts|] + ups + ups
  {
    if parts == [] {
      ups := 0;
      assert Depths(parts)[0] + ups == 0;
    } else {
      var front, last := parts[..|parts| - 1], parts[|parts| - 1];
      var before := CleaningBalances(front);
      ups := PushShape(CleanParts(front), before, last);
      PushLength(CleanParts(front), before, last);
      ReachesMore(Depths(front), Depths(front)[|front|] + Descent(last), before, ups);
    }
  }

  lemma PushLength(c: Path, ups: nat, part: Name)
    requires Shaped(c, ups)
    ensures |Push(c, part)| == |c| + if part == ".." && ups == |c| then 1 else Descent(part)
  {
    if part == ".." && ups < |c| { LastIsName(c, ups); }
  }

  /** No component leads above the directory the path is taken from. */
  predicate NeverAbove(path: string) {
    forall k | 0 <= k <= |Components(path)| :: Depths(Components(path))[k] >= 0
  }

  /** A path is local exactly when it is relative, not empty, and never leads
      above the directory it is taken from. */
  lemma LocalIff(path: string)
    ensures IsLocal(path) <==> path != "" && !Rooted(path) && NeverAbove(path)
  {
    var parts := Components(path);
    var ups := CleaningBalances(parts);
    var c := Clean(path);
    if ups > 0 {
      assert c[0] == "..";
    } else if c != [] {
      assert c[0] == c[0..][0] && c[ups..] == c;
    }
  }

  // ---- Relative paths ----

  /** How many components two paths have in common. */
  function Shared(a: Path, b: Path): nat {
    if a != [] && b != [] && a[0] == b[0] then 1 + Shared(a[1..], b[1..]) else 0
  }

  lemma {:induction false} SharedAgree(a: Path, b: Path)
    ensures Shared(a, b) <= |a| && Shared(a, b) <= |b| && a[..Shared(a, b)] == b[..Shared(a, b)]
  {
    if a != [] && b != [] && a[0] == b[0] {
      SharedAgree(a[1..], b[1..]);
      var n := Shared(a[1..], b[1..]);
      assert a[..n + 1] == [a[0]] + a[1..][..n] && b[..n + 1] == [b[0]] + b[1..][..n];
    }
  }

  function Ups(n: nat): Path {
    if n == 0 then [] else Ups(n - 1) + [".."]
  }

  /** `filepath.Rel`: the way from one path to another by their texts; one may
      be outside the other. */
  function Rel(base: string, path: string): Option<Path> {
    var b, t := Cleaned(base), Cleaned(path);
    if Rooted(base) != Rooted(path) then None
    else if b == t then Some([])
    else
      var target := if t == [] && !Rooted(path) then ["."] else t;
      SharedAgree(b, target);
      var n := Shared(b, target);
      if n < |b| && n < |target| && b[n] == ".." then None else Some(Ups(|b| - n) + target[n..])
  }

  lemma {:induction false} RootedIsPlain(parts: Path)
    ensures Plain(CleanRooted(parts))
  {
    if parts != [] {
      RootedIsPlain(parts[..|parts| - 1]);
    }
  }

  /** Names are only added. */
  lemma {:induction false} RootedOfPlain(c: Path, names: Path)
    requires Plain(c) && Plain(names) && CleanRooted(c) == c
    ensures CleanRooted(c + names) == c + names
    decreases |names|
  {
    if names == [] {
      assert c + names == c;
    } else {
      var front := names[..|names| - 1];
      assert (c + names)[..|c + names| - 1] == c + front && c + names == c + front + [names[|names| - 1]];
      RootedOfPlain(c, front);
    }
  }

  lemma {:induction false} PlainIsCleaned(parts: Path, names: Path)
    requires Plain(names)
    ensures CleanParts(parts + names) == CleanParts(parts) + names
    ensures CleanRooted(parts + names) == CleanRooted(parts) + names
    decreases |names|
  {
    if names == [] {
      assert parts + names == parts && CleanParts(parts) + names == CleanParts(parts);
      assert CleanRooted(parts) + names == CleanRooted(parts);
    } else {
      var front, last := names[..|names| - 1], names[|names| - 1];
      assert (parts + names)[..|parts + names| - 1] == parts + front && names == front + [last];
      PlainIsCleaned(parts, front);
    }
  }

  lemma RootedStep(front: Path, part: Name)
    ensures CleanRooted(front + [part]) == PushRooted(CleanRooted(front), part)
  {
    assert (front + [part])[..|front + [part]| - 1] == front;
  }

  lemma PlainStays(c: Path)
    requires Plain(c)
    ensures CleanRooted(c) == c
  {
    RootedOfPlain([], c);
    assert [] + c == c;
  }

  lemma OneUp(front: Path, c: Path)
    requires CleanRooted(front) == c && Plain(c) && c != []
    ensures CleanRooted(front + [".."]) == c[..|c| - 1]
  {
    RootedStep(front, "..");
    assert c[|c| - 1] != "..";
  }

  /** Going up takes names off. */
  lemma {:induction false} UpsTakeOff(c: Path, n: nat)
    requires Plain(c) && n <= |c|
    ensures CleanRooted(c + Ups(|c| - n)) == c[..n]
    decreases |c| - n
  {
    if n == |c| {
      PlainStays(c);
      assert c + [] == c && c[..n] == c;
    } else {
      UpsTakeOff(c, n + 1);
      var ups := Ups(|c| - n - 1);
      assert c + Ups(|c| - n) == (c + ups) + [".."];
      OneUp(c + ups, c[..n + 1]);
      assert c[..n + 1][..n] == c[..n];
    }
  }

  lemma UpsThenNames(b: Path, ups: Path, names: Path, kept: Path)
    requires Plain(names) && CleanRooted(b + ups) == kept
    ensures CleanRooted(b + (ups + names)) == kept + names
  {
    PlainIsCleaned(b + ups, names);
    assert b + (ups + names) == (b + ups) + names;
  }

  lemma PlainTail(t: Path, n: nat)
    requires Plain(t) && n <= |t|
    ensures Plain(t[n..]) && t[..n] + t[n..] == t
  {
  }

  lemma UpAndDown(b: Path, t: Path, n: nat)
    requires Plain(b) && Plain(t) && n <= |b| && n <= |t| && b[..n] == t[..n]
    ensures CleanRooted(b + (Ups(|b| - n) + t[n..])) == t
  {
    PlainTail(t, n);
    UpsTakeOff(b, n);
    UpsThenNames(b, Ups(|b| - n), t[n..], t[..n]);
  }

  lemma RelOfSame(b: Path)
    requires Plain(b)
    ensures CleanRooted(b + []) == b
  {
    PlainStays(b);
    assert b + [] == b;
  }

  lemma WayBetween(b: Path, t: Path, n: nat)
    requires Plain(b) && Plain(t) && n == Shared(b, t)
    ensures n <= |b| && n <= |t| && CleanRooted(b + (Ups(|b| - n) + t[n..])) == t
  {
    SharedAgree(b, t);
    UpAndDown(b, t, n);
  }

  lemma RelIs(base: string, path: string, b: Path, t: Path, rel: Option<Path>)
    requires Rooted(base) && b == Cleaned(base) && t == Cleaned(path) && rel == Rel(base, path) && rel.Some?
    ensures Rooted(path) && Shared(b, t) <= |b| && Shared(b, t) <= |t|
    ensures rel.value == if b == t then [] else Ups(|b| - Shared(b, t)) + t[Shared(b, t)..]
  {
    SharedAgree(b, t);
  }

  lemma RelLeads(b: Path, t: Path, rel: Path)
    requires Plain(b) && Plain(t) && Shared(b, t) <= |b| && Shared(b, t) <= |t|
    requires rel == if b == t then [] else Ups(|b| - Shared(b, t)) + t[Shared(b, t)..]
    ensures CleanRooted(b + rel) == t
  {
    if b == t { RelOfSame(b); } else { WayBetween(b, t, Shared(b, t)); }
  }

  /** Taken from an absolute path, the relative one leads where it should. */
  lemma RelLeadsThere(base: string, path: string)
    requires Rooted(base) && Rel(base, path).Some?
    ensures CleanRooted(Cleaned(base) + Rel(base, path).value) == Cleaned(path)
  {
    RelIs(base, path, Cleaned(base), Cleaned(path), Rel(base, path));
    CleanedIsPlain(base);
    CleanedIsPlain(path);
    RelLeads(Cleaned(base), Cleaned(path), Rel(base, path).value);
  }

  lemma CleanedIsPlain(path: string)
    requires Rooted(path)
    ensures Plain(Cleaned(path))
  {
    RootedIsPlain(Components(path));
  }

  // ---- Names ----

  lemma {:induction false} NameEnds(name: string, rest: string, part: string)
    requires '/' !in name
    ensures SplitFrom(name + rest, part) == SplitFrom(rest, part + name)
  {
    if name == "" {
      assert name + rest == rest && part + name == part;
    } else {
      assert (name + rest)[1..] == name[1..] + rest && part + name == (part + [name[0]]) + name[1..];
      assert '/' !in name[1..];
      NameEnds(name[1..], rest, part + [name[0]]);
    }
  }

  predicate IsComponent(name: string) {
    name != "" && name != "." && name != ".." && '/' !in name
  }

  /** A name is its own only component. */
  lemma NameIsClean(name: string)
    requires IsComponent(name)
    ensures Clean(name) == [name] && IsLocal(name)
  {
    assert name + "" == name && "" + name == name;
    NameEnds(name, "", "");
    assert SplitFrom("", name) == [name];
    assert [name][..0] == [] && CleanParts([name]) == Push([], name);
    assert name[0] in name;
  }
}
