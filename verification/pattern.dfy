/** Anchored regular patterns made of single-character classes (possibly
    optional, as in `[0-9]` and `[\s\-]?`) and alternations of literal
    strings (as in `(\+7|7|8)?`), with the backtracking matcher `re.match`
    runs on them: an optional class first tries to take a character, an
    alternation tries its options in order, and each falls back to the next
    choice when the rest of the pattern fails. */
module Pattern {
  import opened Wrappers

  datatype Element =
    | Class(p: char -> bool, optional: bool)
    | Choice(options: seq<string>)

  /** The piece of text an element matches. */
  predicate Fits(e: Element, piece: string) {
    match e
    case Class(p, optional) => (|piece| == 1 && p(piece[0])) || (optional && piece == [])
    case Choice(options) => piece in options
  }

  predicate FitsAll(pat: seq<Element>, pieces: seq<string>) {
    |pieces| == |pat| && forall i :: 0 <= i < |pat| ==> Fits(pat[i], pieces[i])
  }

  function Concat(pieces: seq<string>): string {
    if pieces == [] then [] else pieces[0] + Concat(pieces[1..])
  }

  /** The language of the pattern: texts that split into fitting pieces. */
  ghost predicate InLanguage(pat: seq<Element>, s: string) {
    exists pieces :: FitsAll(pat, pieces) && Concat(pieces) == s
  }

  function Width(pat: seq<Element>): nat {
    if pat != [] && pat[0].Choice? then |pat[0].options| else 0
  }

  /** The backtracking matcher; on success it returns the pieces it chose. */
  function Match(pat: seq<Element>, s: string): (r: Option<seq<string>>)
    ensures r.Some? ==> FitsAll(pat, r.value) && Concat(r.value) == s
    decreases |pat|, Width(pat)
  {
    if pat == [] then
      if s == [] then Some([]) else None
    else
      match pat[0]
      case Class(p, optional) =>
        var taken := if s != [] && p(s[0]) then Match(pat[1..], s[1..]) else None;
        if taken.Some? then
          assert s == s[..1] + s[1..];
          Some([s[..1]] + taken.value)
        else if optional then
          match Match(pat[1..], s)
          case Some(rest) => Some([[]] + rest)
          case None => None
        else None
      case Choice(options) =>
        if options == [] then None
        else
          var o := options[0];
          var taken := if |o| <= |s| && s[..|o|] == o then Match(pat[1..], s[|o|..]) else None;
          if taken.Some? then
            assert s == o + s[|o|..];
            Some([o] + taken.value)
          else
            match Match([Choice(options[1..])] + pat[1..], s)
            case Some(pieces) =>
              assert ([Choice(options[1..])] + pat[1..])[1..] == pat[1..];
              assert FitsAll(pat, pieces) by {
                forall i | 1 <= i < |pat| ensures Fits(pat[i], pieces[i]) {
                  assert pat[i] == ([Choice(options[1..])] + pat[1..])[i];
                }
              }
              Some(pieces)
            case None => None
  }

  lemma ConcatCons(piece: string, pieces: seq<string>)
    ensures Concat([piece] + pieces) == piece + Concat(pieces)
  {
    assert ([piece] + pieces)[1..] == pieces;
  }

  lemma {:induction false} ConcatAppend(a: seq<string>, b: seq<string>)
    ensures Concat(a + b) == Concat(a) + Concat(b)
    decreases |a|
  {
    if a == [] {
      assert a + b == b;
    } else {
      assert (a + b)[1..] == a[1..] + b;
      ConcatAppend(a[1..], b);
    }
  }

  /** A stretch of the pattern fits the same stretch of the pieces. */
  lemma FitsSlice(pat: seq<Element>, pieces: seq<string>, i: nat, j: nat)
    requires FitsAll(pat, pieces) && i <= j <= |pat|
    ensures FitsAll(pat[i..j], pieces[i..j])
  {
    forall k | 0 <= k < j - i ensures Fits(pat[i..j][k], pieces[i..j][k]) {
      assert Fits(pat[i + k], pieces[i + k]);
    }
  }

  /** Every text of the language is matched: backtracking never misses a
      split. */
  lemma {:induction false} MatchComplete(pat: seq<Element>, s: string, pieces: seq<string>)
    requires FitsAll(pat, pieces) && Concat(pieces) == s
    ensures Match(pat, s).Some?
    decreases |pat|, Width(pat)
  {
    if pat != [] {
      var rest := pieces[1..];
      assert FitsAll(pat[1..], rest) by {
        forall i | 0 <= i < |pat[1..]| ensures Fits(pat[1..][i], rest[i]) {
          assert Fits(pat[i + 1], pieces[i + 1]);
        }
      }
      assert pieces == [pieces[0]] + rest;
      ConcatCons(pieces[0], rest);
      assert s == pieces[0] + Concat(rest);
      match pat[0]
      case Class(p, optional) =>
        if pieces[0] != [] {
          assert s[0] == pieces[0][0] && s[1..] == Concat(rest);
          MatchComplete(pat[1..], s[1..], rest);
        } else {
          assert Concat(rest) == s;
          MatchComplete(pat[1..], s, rest);
        }
      case Choice(options) =>
        var o := options[0];
        if pieces[0] == o {
          assert s[..|o|] == o && s[|o|..] == Concat(rest);
          MatchComplete(pat[1..], s[|o|..], rest);
        } else {
          var pat' := [Choice(options[1..])] + pat[1..];
          assert FitsAll(pat', pieces) by {
            assert Fits(pat'[0], pieces[0]);
            forall i | 1 <= i < |pat'| ensures Fits(pat'[i], pieces[i]) {
              assert pat'[i] == pat[i];
            }
          }
          MatchComplete(pat', s, pieces);
        }
    }
  }

  /** The matcher decides the language. */
  lemma MatchDecides(pat: seq<Element>, s: string)
    ensures Match(pat, s).Some? <==> InLanguage(pat, s)
  {
    if InLanguage(pat, s) {
      var pieces :| FitsAll(pat, pieces) && Concat(pieces) == s;
      MatchComplete(pat, s, pieces);
    }
  }
}
