/**
  The parts of java.lang.String that the framing code relies on, for the
  literal patterns it uses: `split(sep, 2)`, `split(sep)` with a one-character
  separator, `trim()` and `equalsIgnoreCase`. Strings are sequences of
  characters; every character these operations look at (`'\n'`, `':'` and the
  characters up to U+0020) is a single UTF-16 code unit, so working on
  characters instead of code units changes nothing here.
*/
module JavaString {
  import opened Wrappers

  /** `pat` occurs in `s` starting at index `i`. */
  predicate OccursAt(s: string, pat: string, i: int) {
    0 <= i && i + |pat| <= |s| && s[i..i + |pat|] == pat
  }

  /** A one-character pattern occurs exactly where that character stands. */
  lemma OccursAtChar(s: string, c: char, i: int)
    ensures OccursAt(s, [c], i) <==> 0 <= i < |s| && s[i] == c
  {
    if 0 <= i < |s| {
      assert s[i..i + 1] == [s[i]];
    }
  }

  /** A one-character pattern occurs somewhere exactly when the character does. */
  lemma NoOccurrenceOfChar(s: string, c: char)
    ensures (forall j :: !OccursAt(s, [c], j)) <==> c !in s
  {
    forall j ensures OccursAt(s, [c], j) <==> 0 <= j < |s| && s[j] == c {
      OccursAtChar(s, c, j);
    }
  }

  /** The first index at or after `from` where `pat` occurs (String.indexOf(pat, from)). */
  function IndexFrom(s: string, pat: string, from: nat): (r: Option<nat>)
    ensures r.Some? ==> from <= r.value && OccursAt(s, pat, r.value)
    ensures forall j :: from <= j && (r.None? || j < r.value) ==> !OccursAt(s, pat, j)
    decreases |s| - from
  {
    if from + |pat| > |s| then None
    else if s[from..from + |pat|] == pat then Some(from)
    else IndexFrom(s, pat, from + 1)
  }

  /** String.indexOf(pat), with None for Java's -1. */
  function IndexOf(s: string, pat: string): (r: Option<nat>)
    ensures r.None? <==> forall j :: !OccursAt(s, pat, j)
    ensures r.Some? ==> OccursAt(s, pat, r.value)
    ensures r.Some? ==> forall j :: 0 <= j < r.value ==> !OccursAt(s, pat, j)
  {
    IndexFrom(s, pat, 0)
  }

  /**
    `s.split(sep, 2)` for a literal separator: the pattern is applied at most
    once, at its first occurrence; without an occurrence the result is `[s]`.
    A positive limit keeps empty leading and trailing parts.
  */
  function SplitFirst(s: string, sep: string): (parts: seq<string>)
    requires |sep| > 0
    ensures |parts| == 1 || |parts| == 2
    ensures |parts| == 1 <==> forall j :: !OccursAt(s, sep, j)
    ensures |parts| == 1 ==> parts[0] == s
    ensures |parts| == 2 ==> s == parts[0] + sep + parts[1]
    ensures |parts| == 2 ==> forall j :: 0 <= j < |parts[0]| ==> !OccursAt(s, sep, j)
  {
    match IndexOf(s, sep)
    case None => [s]
    case Some(i) => [s[..i], s[i + |sep|..]]
  }

  /** When `sep` first occurs at `i`, `split(sep, 2)` cuts exactly there. */
  lemma SplitFirstAt(s: string, sep: string, i: nat)
    requires |sep| > 0
    requires OccursAt(s, sep, i)
    requires forall j :: 0 <= j < i ==> !OccursAt(s, sep, j)
    ensures SplitFirst(s, sep) == [s[..i], s[i + |sep|..]]
  {
    var parts := SplitFirst(s, sep);
    assert |parts| == 2;
    var n := |parts[0]|;
    assert n + |sep| <= |s| && s[n..n + |sep|] == sep by {
      assert s == parts[0] + sep + parts[1];
      assert s[n..n + |sep|] == (parts[0] + sep + parts[1])[n..n + |sep|];
    }
    assert OccursAt(s, sep, n);
    assert n == i;
    assert s[..i] == parts[0] by {
      assert s == parts[0] + sep + parts[1];
    }
    assert s[i + |sep|..] == parts[1] by {
      assert s == parts[0] + sep + parts[1];
    }
  }

  /** The pieces joined back together with `c` between consecutive ones. */
  function Join(ps: seq<string>, c: char): string
    requires |ps| >= 1
  {
    if |ps| == 1 then ps[0] else ps[0] + [c] + Join(ps[1..], c)
  }

  /** Every piece between occurrences of `c`, including empty ones at either end. */
  function Pieces(s: string, c: char): (ps: seq<string>)
    ensures |ps| >= 1
    ensures forall k :: 0 <= k < |ps| ==> c !in ps[k]
    ensures Join(ps, c) == s
    ensures c !in s ==> ps == [s]
    decreases |s|
  {
    if s == [] then [[]]
    else
      var rest := Pieces(s[1..], c);
      if s[0] == c then
        assert Join([[]] + rest, c) == [c] + Join(rest, c);
        [[]] + rest
      else
        var ps := [[s[0]] + rest[0]] + rest[1..];
        assert Join(ps, c) == [s[0]] + Join(rest, c) by {
          if |rest| > 1 {
            assert ps[1..] == rest[1..];
          }
        }
        assert s == [s[0]] + s[1..];
        ps
  }

  /** Distinct lists of `c`-free pieces join to distinct strings. */
  lemma {:induction false} JoinInjective(ps: seq<string>, qs: seq<string>, c: char)
    requires |ps| >= 1 && |qs| >= 1
    requires forall k :: 0 <= k < |ps| ==> c !in ps[k]
    requires forall k :: 0 <= k < |qs| ==> c !in qs[k]
    requires Join(ps, c) == Join(qs, c)
    ensures ps == qs
    decreases |ps|
  {
    var s := Join(ps, c);
    if |ps| == 1 && |qs| == 1 {
    } else if |ps| == 1 {
      assert false;
    } else if |qs| == 1 {
      assert false;
    } else {
      assert s == ps[0] + [c] + Join(ps[1..], c);
      assert s == qs[0] + [c] + Join(qs[1..], c);
      var a, b := |ps[0]|, |qs[0]|;
      assert s[a] == c && forall k :: 0 <= k < a ==> s[k] == ps[0][k] && s[k] != c;
      assert s[b] == c && forall k :: 0 <= k < b ==> s[k] == qs[0][k] && s[k] != c;
      assert ps[0] == s[..a] == qs[0];
      assert Join(ps[1..], c) == s[a + 1..] == Join(qs[1..], c);
      JoinInjective(ps[1..], qs[1..], c);
      assert ps == [ps[0]] + ps[1..];
      assert qs == [qs[0]] + qs[1..];
    }
  }

  /** Splitting undoes joining, when no piece contains the separator. */
  lemma PiecesOfJoin(ps: seq<string>, c: char)
    requires |ps| >= 1
    requires forall k :: 0 <= k < |ps| ==> c !in ps[k]
    ensures Pieces(Join(ps, c), c) == ps
  {
    JoinInjective(Pieces(Join(ps, c), c), ps, c);
  }

  /** Java removes trailing empty strings from the result of a split without limit. */
  function DropTrailingEmpty(ps: seq<string>): (r: seq<string>)
    ensures |r| <= |ps| && r == ps[..|r|]
    ensures forall k :: |r| <= k < |ps| ==> ps[k] == []
    ensures |r| > 0 ==> r[|r| - 1] != []
  {
    if |ps| > 0 && ps[|ps| - 1] == [] then DropTrailingEmpty(ps[..|ps| - 1]) else ps
  }

  /**
    `s.split(String.valueOf(c))`: no occurrence gives `[s]` (so `"".split` is
    `[""]`); otherwise every piece, with the trailing empty ones removed.
  */
  function Split(s: string, c: char): (r: seq<string>)
    ensures |r| <= |Pieces(s, c)| && r == Pieces(s, c)[..|r|]
    ensures forall k :: |r| <= k < |Pieces(s, c)| ==> Pieces(s, c)[k] == []
    ensures c !in s ==> r == [s]
    ensures c in s ==> |r| == 0 || r[|r| - 1] != []
  {
    if c !in s then [s] else DropTrailingEmpty(Pieces(s, c))
  }

  /** The characters String.trim removes: every code unit up to U+0020. */
  predicate IsTrimmable(c: char) {
    c <= ' '
  }

  /** Neither end of `s` carries a character that trim would remove. */
  predicate Trimmed(s: string) {
    s == [] || (!IsTrimmable(s[0]) && !IsTrimmable(s[|s| - 1]))
  }

  /** The first index at or after `from` whose character trim keeps, or |s|. */
  function TrimStart(s: string, from: nat): (st: nat)
    requires from <= |s|
    ensures from <= st <= |s|
    ensures forall k :: from <= k < st ==> IsTrimmable(s[k])
    ensures st < |s| ==> !IsTrimmable(s[st])
    decreases |s| - from
  {
    if from < |s| && IsTrimmable(s[from]) then TrimStart(s, from + 1) else from
  }

  /** One past the last index at or after `st` whose character trim keeps, or `st`. */
  function TrimEnd(s: string, st: nat, len: nat): (e: nat)
    requires st <= len <= |s|
    ensures st <= e <= len
    ensures forall k :: e <= k < len ==> IsTrimmable(s[k])
    ensures e > st ==> !IsTrimmable(s[e - 1])
    decreases len
  {
    if st < len && IsTrimmable(s[len - 1]) then TrimEnd(s, st, len - 1) else len
  }

  /** `r` stands in `s` at index `i`, and everything around it is trimmable. */
  predicate CutFrom(s: string, r: string, i: int) {
    0 <= i && i + |r| <= |s| && r == s[i..i + |r|]
    && (forall k :: 0 <= k < i ==> IsTrimmable(s[k]))
    && (forall k :: i + |r| <= k < |s| ==> IsTrimmable(s[k]))
  }

  /**
    String.trim: the longest middle part of `s` that neither starts nor ends
    with a character up to U+0020; what is cut off consists of such characters only.
  */
  function Trim(s: string): (r: string)
    ensures Trimmed(r)
    ensures exists i :: CutFrom(s, r, i)
    ensures Trimmed(s) ==> r == s
  {
    var st := TrimStart(s, 0);
    var e := TrimEnd(s, st, |s|);
    assert s[st..e] == s[st..st + |s[st..e]|];
    assert CutFrom(s, s[st..e], st);
    s[st..e]
  }

  /** ASCII case folding, enough to compare against the lower-case literal "http". */
  function ToLowerAscii(c: char): char {
    if 'A' <= c <= 'Z' then (c as int + 32) as char else c
  }

  /**
    String.equalsIgnoreCase, restricted to ASCII case folding: equal length and
    equal characters up to case.
  */
  predicate EqualsIgnoreCase(a: string, b: string) {
    |a| == |b| && forall i :: 0 <= i < |a| ==> ToLowerAscii(a[i]) == ToLowerAscii(b[i])
  }

  /** Exactly the sixteen spellings of "http" in mixed case equal "http" ignoring case. */
  lemma EqualsIgnoreCaseHttp(s: string)
    ensures EqualsIgnoreCase(s, "http") <==>
      |s| == 4 && s[0] in "hH" && s[1] in "tT" && s[2] in "tT" && s[3] in "pP"
  {
    if |s| == 4 {
      assert ToLowerAscii('h') == 'h' && ToLowerAscii('t') == 't' && ToLowerAscii('p') == 'p';
      if EqualsIgnoreCase(s, "http") {
        assert ToLowerAscii(s[0]) == 'h' && ToLowerAscii(s[1]) == 't';
        assert ToLowerAscii(s[2]) == 't' && ToLowerAscii(s[3]) == 'p';
      }
    }
  }
}
