/** Anchored patterns made of repetitions, literals and one optional form, with
    the leftmost-first preference of a backtracking engine. */
module Regex {
  import opened Tree

  datatype Class = DigitClass | BlankClass | SolidClass | LetterClass | AnyClass

  /** `Rep` is `[c]{least,}`, lazy or greedy; `Maybe` is `(?:lead[c]+?)?`. */
  datatype Item =
    | Rep(cls: Class, least: nat, lazy: bool)
    | Lit(text: string)
    | Maybe(lead: char, cls: Class)

  predicate IsBlank(c: char) {
    c == ' ' || c == '\t' || c == '\n' || c == '\U{000C}' || c == '\r'
  }

  predicate In(c: char, cls: Class) {
    match cls
    case DigitClass => '0' <= c <= '9'
    case BlankClass => IsBlank(c)
    case SolidClass => !IsBlank(c)
    case LetterClass => 'a' <= c <= 'z' || 'A' <= c <= 'Z'
    case AnyClass => c != '\n'
  }

  predicate All(s: string, cls: Class) {
    forall i | 0 <= i < |s| :: In(s[i], cls)
  }

  /** The preferred way to cut `s` into one piece per item, or none. */
  function Match(items: seq<Item>, s: string): Option<seq<string>>
    decreases |items|, 2, 0
  {
    if items == [] then (if s == "" then Some([]) else None)
    else
      match items[0]
      case Rep(cls, least, lazy) => if lazy then Up(cls, items[1..], s, least) else Down(cls, least, items[1..], s, |s|)
      case Lit(text) => if text <= s then After(text, Match(items[1..], s[|text|..])) else None
      case Maybe(lead, cls) =>
        var there := if s != "" && s[0] == lead then Up(cls, items[1..], s[1..], 1) else None;
        if there.Some? then Some([[lead] + there.value[0]] + there.value[1..])
        else After("", Match(items[1..], s))
  }

  function After(piece: string, rest: Option<seq<string>>): Option<seq<string>> {
    if rest.Some? then Some([piece] + rest.value) else None
  }

  /** Lazy: the shortest piece of at least `n` characters that lets the rest match. */
  function Up(cls: Class, rest: seq<Item>, s: string, n: nat): (r: Option<seq<string>>)
    ensures r.Some? ==> |r.value| > 0
    decreases |rest| + 1, 1, |s| + 1 - n
  {
    if n > |s| || !All(s[..n], cls) then None
    else
      var here := After(s[..n], Match(rest, s[n..]));
      if here.Some? then here else Up(cls, rest, s, n + 1)
  }

  /** Greedy: the longest piece of at most `n` characters that lets the rest match. */
  function Down(cls: Class, least: nat, rest: seq<Item>, s: string, n: nat): (r: Option<seq<string>>)
    requires n <= |s|
    ensures r.Some? ==> |r.value| > 0
    decreases |rest| + 1, 1, n
  {
    if n < least then None
    else
      var here := if All(s[..n], cls) then After(s[..n], Match(rest, s[n..])) else None;
      if here.Some? then here else if n == 0 then None else Down(cls, least, rest, s, n - 1)
  }

  // ---- The engine finds a match if and only if there is one ----

  predicate Fits(piece: string, item: Item) {
    match item
    case Rep(cls, least, _) => |piece| >= least && All(piece, cls)
    case Lit(text) => piece == text
    case Maybe(lead, cls) => piece == "" || (piece[0] == lead && |piece| >= 2 && All(piece[1..], cls))
  }

  function Join(pieces: seq<string>): string {
    if pieces == [] then "" else pieces[0] + Join(pieces[1..])
  }

  /** `pieces` is a way to read `s`, preferred or not. */
  ghost predicate Reads(items: seq<Item>, s: string, pieces: seq<string>) {
    && |pieces| == |items| && Join(pieces) == s
    && forall i | 0 <= i < |items| :: Fits(pieces[i], items[i])
  }

  lemma ReadsCons(items: seq<Item>, s: string, piece: string, pieces: seq<string>)
    requires items != [] && Fits(piece, items[0]) && Reads(items[1..], s, pieces)
    ensures Reads(items, piece + s, [piece] + pieces)
  {
  }

  lemma {:induction false} MatchIsSound(items: seq<Item>, s: string)
    ensures Match(items, s).Some? ==> Reads(items, s, Match(items, s).value)
    decreases |items|, 2, 0
  {
    if items != [] {
      var rest := items[1..];
      match items[0] {
        case Rep(cls, least, lazy) =>
          if lazy { UpIsSound(items, cls, s, least); } else { DownIsSound(items, cls, least, s, |s|); }
        case Lit(text) =>
          if text <= s && Match(rest, s[|text|..]).Some? {
            MatchIsSound(rest, s[|text|..]);
            assert s == text + s[|text|..];
            ReadsCons(items, s[|text|..], text, Match(rest, s[|text|..]).value);
          }
        case Maybe(lead, cls) =>
          var some := [Rep(cls, 1, true)] + rest;
          if s != "" && s[0] == lead && Up(cls, rest, s[1..], 1).Some? {
            assert some[1..] == rest;
            UpIsSound(some, cls, s[1..], 1);
            var there := Up(cls, rest, s[1..], 1).value;
            MaybeReads(items, s, there);
          } else if Match(rest, s).Some? {
            MatchIsSound(rest, s);
            ReadsCons(items, s, "", Match(rest, s).value);
            assert "" + s == s;
          }
      }
    }
  }

  lemma MaybeReads(items: seq<Item>, s: string, there: seq<string>)
    requires items != [] && items[0].Maybe? && s != "" && s[0] == items[0].lead
    requires Reads([Rep(items[0].cls, 1, true)] + items[1..], s[1..], there)
    ensures there != [] && Reads(items, s, [[s[0]] + there[0]] + there[1..])
  {
  }

  lemma {:induction false} UpIsSound(items: seq<Item>, cls: Class, s: string, n: nat)
    requires items != [] && items[0].Rep? && items[0].cls == cls && items[0].least <= n
    ensures Up(cls, items[1..], s, n).Some? ==> Reads(items, s, Up(cls, items[1..], s, n).value)
    decreases |items|, 1, |s| + 1 - n
  {
    if n <= |s| && All(s[..n], cls) {
      var rest := items[1..];
      if Match(rest, s[n..]).Some? {
        MatchIsSound(rest, s[n..]);
        assert s == s[..n] + s[n..];
        ReadsCons(items, s[n..], s[..n], Match(rest, s[n..]).value);
      } else {
        UpIsSound(items, cls, s, n + 1);
      }
    }
  }

  lemma {:induction false} DownIsSound(items: seq<Item>, cls: Class, least: nat, s: string, n: nat)
    requires items != [] && items[0].Rep? && items[0].cls == cls && items[0].least == least && n <= |s|
    ensures Down(cls, least, items[1..], s, n).Some? ==> Reads(items, s, Down(cls, least, items[1..], s, n).value)
    decreases |items|, 1, n
  {
    if n >= least {
      var rest := items[1..];
      if All(s[..n], cls) && Match(rest, s[n..]).Some? {
        MatchIsSound(rest, s[n..]);
        assert s == s[..n] + s[n..];
        ReadsCons(items, s[n..], s[..n], Match(rest, s[n..]).value);
      } else if n > 0 {
        DownIsSound(items, cls, least, s, n - 1);
      }
    }
  }

  /** A text that can be read at all is matched. */
  lemma {:induction false} MatchIsComplete(items: seq<Item>, s: string, pieces: seq<string>)
    requires Reads(items, s, pieces)
    ensures Match(items, s).Some?
    decreases |items|
  {
    if items != [] {
      var p, rest := pieces[0], items[1..];
      assert s == p + Join(pieces[1..]) && s[|p|..] == Join(pieces[1..]) && s[..|p|] == p;
      assert Fits(p, items[0]);
      assert forall i | 0 <= i < |rest| :: Fits(pieces[1..][i], rest[i]);
      MatchIsComplete(rest, s[|p|..], pieces[1..]);
      match items[0] {
        case Rep(cls, least, lazy) =>
          if lazy { UpFinds(cls, rest, s, least, |p|); } else { DownFinds(cls, least, rest, s, |s|, |p|); }
        case Lit(_) =>
        case Maybe(lead, cls) =>
          if p != "" {
            assert s[1..][|p| - 1..] == s[|p|..] && s[1..][..|p| - 1] == p[1..];
            UpFinds(cls, rest, s[1..], 1, |p| - 1);
          }
      }
    }
  }

  lemma {:induction false} UpFinds(cls: Class, rest: seq<Item>, s: string, n: nat, m: nat)
    requires n <= m <= |s| && All(s[..m], cls) && Match(rest, s[m..]).Some?
    ensures Up(cls, rest, s, n).Some?
    decreases m - n
  {
    assert forall i | 0 <= i < n :: s[..n][i] == s[..m][i];
    if n < m && Match(rest, s[n..]).None? {
      UpFinds(cls, rest, s, n + 1, m);
    }
  }

  lemma {:induction false} DownFinds(cls: Class, least: nat, rest: seq<Item>, s: string, n: nat, m: nat)
    requires least <= m <= n <= |s| && All(s[..m], cls) && Match(rest, s[m..]).Some?
    ensures Down(cls, least, rest, s, n).Some? && |Down(cls, least, rest, s, n).value[0]| >= m
    decreases n
  {
    if m < n && !(All(s[..n], cls) && Match(rest, s[n..]).Some?) {
      DownFinds(cls, least, rest, s, n - 1, m);
    }
  }

  /** The engine finds a match exactly when the text can be read. */
  lemma MatchIff(items: seq<Item>, s: string)
    ensures Match(items, s).Some? <==> exists pieces :: Reads(items, s, pieces)
  {
    MatchIsSound(items, s);
    if pieces :| Reads(items, s, pieces) {
      MatchIsComplete(items, s, pieces);
    }
  }

  // ---- Which way is preferred ----

  /** A piece of length `n` is possible here. */
  predicate Possible(cls: Class, rest: seq<Item>, s: string, n: nat)
    requires n <= |s|
  {
    All(s[..n], cls) && Match(rest, s[n..]).Some?
  }

  /** A lazy item takes the first length that works. */
  lemma {:induction false} UpPicks(cls: Class, rest: seq<Item>, s: string, n: nat, m: nat)
    requires n <= m <= |s| && All(s[..m], cls) && Match(rest, s[m..]).Some?
    requires forall k | n <= k < m :: Match(rest, s[k..]).None?
    ensures Up(cls, rest, s, n) == After(s[..m], Match(rest, s[m..]))
    decreases m - n
  {
    assert forall i | 0 <= i < n :: s[..n][i] == s[..m][i];
    if n < m {
      UpPicks(cls, rest, s, n + 1, m);
    }
  }

  /** A greedy item takes the last length that works. */
  lemma {:induction false} DownPicks(cls: Class, least: nat, rest: seq<Item>, s: string, n: nat, m: nat)
    requires least <= m <= n <= |s| && Possible(cls, rest, s, m)
    requires forall k | m < k <= n :: !Possible(cls, rest, s, k)
    ensures Down(cls, least, rest, s, n) == After(s[..m], Match(rest, s[m..]))
    decreases n
  {
    assert Possible(cls, rest, s, n) == (All(s[..n], cls) && Match(rest, s[n..]).Some?);
    if m < n {
      DownPicks(cls, least, rest, s, n - 1, m);
    }
  }

  lemma {:induction false} DownFails(cls: Class, least: nat, rest: seq<Item>, s: string, n: nat)
    requires least >= 1 && n <= |s| && (s == "" || !In(s[0], cls))
    ensures Down(cls, least, rest, s, n).None?
    decreases n
  {
    if n > 0 {
      assert s[..n][0] == s[0];
      DownFails(cls, least, rest, s, n - 1);
    }
  }
}
