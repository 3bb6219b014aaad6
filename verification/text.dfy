/** Character classes and the string helpers of Python's `str` that the
    modelled code relies on: `isspace`, ASCII `lower`, `strip` and `split()`. */
module Text {

  /** The characters for which Python's `str.isspace` holds; `strip()`,
      `split()` and the regular-expression class `\s` all use this set. */
  predicate IsSpace(c: char) {
    || '\U{9}' <= c <= '\U{D}'
    || '\U{1C}' <= c <= '\U{20}'
    || c == '\U{85}' || c == '\U{A0}' || c == '\U{1680}'
    || '\U{2000}' <= c <= '\U{200A}'
    || c == '\U{2028}' || c == '\U{2029}' || c == '\U{202F}' || c == '\U{205F}'
    || c == '\U{3000}'
  }

  predicate AllSpace(s: string) {
    forall i :: 0 <= i < |s| ==> IsSpace(s[i])
  }

  predicate NoSpace(s: string) {
    forall i :: 0 <= i < |s| ==> !IsSpace(s[i])
  }

  predicate IsAsciiUpper(c: char) {
    'A' <= c <= 'Z'
  }

  /** `str.lower()` restricted to ASCII: only `A`..`Z` change. */
  function LowerChar(c: char): (r: char)
    ensures !IsAsciiUpper(r)
    ensures IsAsciiUpper(c) ==> r as int == c as int + 32
    ensures !IsAsciiUpper(c) ==> r == c
  {
    if IsAsciiUpper(c) then (c as int + 32) as char else c
  }

  function Lower(s: string): (r: string)
    ensures |r| == |s|
    ensures forall i :: 0 <= i < |s| ==> r[i] == LowerChar(s[i])
  {
    seq(|s|, i requires 0 <= i < |s| => LowerChar(s[i]))
  }

  /** Number of leading whitespace characters. */
  function LeadingSpace(s: string): (n: nat)
    ensures n <= |s|
    ensures AllSpace(s[..n])
    ensures n < |s| ==> !IsSpace(s[n])
    decreases |s|
  {
    if |s| > 0 && IsSpace(s[0]) then 1 + LeadingSpace(s[1..]) else 0
  }

  /** Number of trailing whitespace characters. */
  function TrailingSpace(s: string): (n: nat)
    ensures n <= |s|
    ensures AllSpace(s[|s| - n..])
    ensures n < |s| ==> !IsSpace(s[|s| - n - 1])
    decreases |s|
  {
    if |s| > 0 && IsSpace(s[|s| - 1]) then
      var u := s[..|s| - 1];
      var m := TrailingSpace(u);
      assert s[|s| - (m + 1)..] == u[|u| - m..] + [s[|s| - 1]];
      m + 1
    else 0
  }

  /** Python's `str.strip()` with no argument. */
  function Strip(s: string): (r: string)
    ensures |r| <= |s|
    ensures r == [] <==> AllSpace(s)
    ensures r != [] ==> !IsSpace(r[0]) && !IsSpace(r[|r| - 1])
  {
    var t := s[LeadingSpace(s)..];
    assert AllSpace(s) <==> t == [] by {
      if t == [] {
        assert s == s[..LeadingSpace(s)];
      }
    }
    t[..|t| - TrailingSpace(t)]
  }

  /** Length of the run of non-whitespace characters that starts `s`. */
  function WordLength(s: string): (n: nat)
    ensures n <= |s|
    ensures NoSpace(s[..n])
    ensures n < |s| ==> IsSpace(s[n])
    decreases |s|
  {
    if |s| > 0 && !IsSpace(s[0]) then 1 + WordLength(s[1..]) else 0
  }

  /** Python's `str.split()` with no argument: the maximal runs of
      non-whitespace characters, in order. */
  function Fields(s: string): (r: seq<string>)
    ensures forall i :: 0 <= i < |r| ==> r[i] != [] && NoSpace(r[i])
    ensures AllSpace(s) <==> r == []
    decreases |s|
  {
    var t := s[LeadingSpace(s)..];
    if t == [] then
      assert s == s[..LeadingSpace(s)];
      []
    else
      var n := WordLength(t);
      var rest := Fields(t[n..]);
      WordsCons(t[..n], rest);
      assert !AllSpace(s) by {
        assert s[LeadingSpace(s)] == t[0];
      }
      [t[..n]] + rest
  }

  lemma WordsCons(w: string, rest: seq<string>)
    requires w != [] && NoSpace(w)
    requires forall i :: 0 <= i < |rest| ==> rest[i] != [] && NoSpace(rest[i])
    ensures forall i :: 0 <= i < |[w] + rest| ==> ([w] + rest)[i] != [] && NoSpace(([w] + rest)[i])
  {
    forall i | 0 <= i < |[w] + rest|
      ensures ([w] + rest)[i] != [] && NoSpace(([w] + rest)[i])
    {
      if i > 0 {
        assert ([w] + rest)[i] == rest[i - 1];
      }
    }
  }

  // ---------------------------------------------------------------------
  // Properties of strip and split.
  // ---------------------------------------------------------------------

  lemma LeadingSpacePadded(lead: string, t: string)
    requires AllSpace(lead)
    requires t == [] || !IsSpace(t[0])
    ensures LeadingSpace(lead + t) == |lead|
  {
    if lead != [] {
      assert (lead + t)[1..] == lead[1..] + t;
      LeadingSpacePadded(lead[1..], t);
    } else {
      assert lead + t == t;
    }
  }

  lemma TrailingSpacePadded(t: string, trail: string)
    requires AllSpace(trail)
    requires t == [] || !IsSpace(t[|t| - 1])
    ensures TrailingSpace(t + trail) == |trail|
  {
    if trail != [] {
      assert (t + trail)[..|t + trail| - 1] == t + trail[..|trail| - 1];
      TrailingSpacePadded(t, trail[..|trail| - 1]);
    } else {
      assert t + trail == t;
    }
  }

  /** `strip()` removes exactly the whitespace padding around a string whose
      ends are not whitespace. */
  lemma {:induction false} StripPadded(lead: string, t: string, trail: string)
    requires AllSpace(lead) && AllSpace(trail)
    requires t == [] || (!IsSpace(t[0]) && !IsSpace(t[|t| - 1]))
    ensures Strip(lead + t + trail) == t
  {
    var s := lead + t + trail;
    if t == [] {
      assert AllSpace(s);
    } else {
      assert s == lead + (t + trail);
      LeadingSpacePadded(lead, t + trail);
      assert s[|lead|..] == t + trail;
      TrailingSpacePadded(t, trail);
    }
  }

  /** Stripping twice is stripping once. */
  lemma StripIdempotent(s: string)
    ensures Strip(Strip(s)) == Strip(s)
  {
    var r := Strip(s);
    StripPadded([], r, []);
    assert [] + r + [] == r;
  }

  /** Splitting a word followed by whitespace (or nothing) yields the word
      and then the fields of the rest: leading whitespace is ignored and any
      non-empty run of whitespace separates. */
  lemma {:induction false} FieldsCons(w: string, f: string, rest: string)
    requires AllSpace(w)
    requires f != [] && NoSpace(f)
    requires rest == [] || IsSpace(rest[0])
    ensures Fields(w + f + rest) == [f] + Fields(rest)
  {
    var s := w + f + rest;
    assert s == w + (f + rest);
    LeadingSpacePadded(w, f + rest);
    var t := s[LeadingSpace(s)..];
    assert t == f + rest;
    var n := WordLength(t);
    assert n == |f| by {
      assert forall i :: 0 <= i < |f| ==> t[i] == f[i];
      assert |f| < |t| ==> t[|f|] == rest[0];
    }
    assert t[..n] == f;
    assert t[n..] == rest;
  }

  lemma FieldsAllSpace(w: string)
    requires AllSpace(w)
    ensures Fields(w) == []
  {
  }
}
