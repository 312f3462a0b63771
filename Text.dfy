/** The JavaScript string operations the core relies on: the `\s` class of
    regular expressions, `trim`, `toLowerCase`, `startsWith`, `includes`,
    `indexOf`, `split`, `join` and decimal rendering of numbers. */
module Text {
  import opened Wrappers

  /** The `\s` character class of JavaScript regular expressions (WhiteSpace
      and LineTerminator code points); `trim` removes exactly these. */
  predicate IsSpace(c: char) {
    c in SpaceChars
  }

  const SpaceChars: set<char> := {
    '\t', '\n', '\U{000B}', '\U{000C}', '\r', ' ', '\U{00A0}', '\U{1680}',
    '\U{2000}', '\U{2001}', '\U{2002}', '\U{2003}', '\U{2004}', '\U{2005}', '\U{2006}',
    '\U{2007}', '\U{2008}', '\U{2009}', '\U{200A}',
    '\U{2028}', '\U{2029}', '\U{202F}', '\U{205F}', '\U{3000}', '\U{FEFF}'
  }

  /** No character of `s` matches `\s`. */
  predicate NoSpace(s: string) {
    forall k :: 0 <= k < |s| ==> !IsSpace(s[k])
  }

  /** `s.trim() === ''`. */
  predicate IsBlank(s: string) {
    forall k :: 0 <= k < |s| ==> IsSpace(s[k])
  }

  function LowerChar(c: char): (r: char)
    ensures 'A' <= c <= 'Z' ==> r as int == c as int + 32
    ensures !('A' <= c <= 'Z') ==> r == c
  {
    if 'A' <= c <= 'Z' then (c as int + 32) as char else c
  }

  /** `s.toLowerCase()` on the ASCII letters. */
  function ToLower(s: string): (r: string)
    ensures |r| == |s|
    ensures forall k :: 0 <= k < |s| ==> r[k] == LowerChar(s[k])
  {
    if s == [] then [] else [LowerChar(s[0])] + ToLower(s[1..])
  }

  lemma {:induction false} ToLowerIdempotent(s: string)
    ensures ToLower(ToLower(s)) == ToLower(s)
  {
    var once := ToLower(s);
    assert forall k :: 0 <= k < |s| ==> LowerChar(once[k]) == once[k];
  }

  lemma {:induction false} ToLowerConcat(a: string, b: string)
    ensures ToLower(a + b) == ToLower(a) + ToLower(b)
    decreases |a|
  {
    if a == [] {
      assert a + b == b;
    } else {
      assert (a + b)[0] == a[0];
      assert (a + b)[1..] == a[1..] + b;
      ToLowerConcat(a[1..], b);
    }
  }

  predicate StartsWith(s: string, p: string) {
    |p| <= |s| && s[..|p|] == p
  }

  /** `t` occurs in `s` at index `i`. */
  predicate OccursAt(s: string, t: string, i: int) {
    0 <= i && i + |t| <= |s| && s[i..i + |t|] == t
  }

  /** `s.includes(t)`: `t` is a prefix of some suffix of `s`. */
  predicate Includes(s: string, t: string)
    decreases |s|
  {
    StartsWith(s, t) || (|s| > 0 && Includes(s[1..], t))
  }

  /** `Includes` holds exactly when `t` occurs in `s` at some index. */
  lemma {:induction false} IncludesOccurs(s: string, t: string)
    ensures Includes(s, t) <==> exists i :: OccursAt(s, t, i)
    decreases |s|
  {
    if StartsWith(s, t) {
      assert OccursAt(s, t, 0);
    } else if |s| > 0 {
      IncludesOccurs(s[1..], t);
      if exists i :: OccursAt(s[1..], t, i) {
        var i :| OccursAt(s[1..], t, i);
        assert s[i + 1..i + 1 + |t|] == s[1..][i..i + |t|];
        assert OccursAt(s, t, i + 1);
      }
      if exists i :: OccursAt(s, t, i) {
        var i :| OccursAt(s, t, i);
        assert i != 0;
        assert s[1..][i - 1..i - 1 + |t|] == s[i..i + |t|];
        assert OccursAt(s[1..], t, i - 1);
      }
    } else {
      assert forall i :: !OccursAt(s, t, i);
    }
  }

  /** The empty string is included in every string. */
  lemma IncludesEmpty(s: string)
    ensures Includes(s, "")
  {
    assert StartsWith(s, "");
  }

  /** `s.indexOf(t, from)` for a non-empty `t`: the first occurrence at or after `from`. */
  function IndexOf(s: string, t: string, from: nat): (r: Option<nat>)
    requires |t| > 0
    ensures r.Some? ==> from <= r.value && OccursAt(s, t, r.value)
    ensures r.Some? ==> forall j :: from <= j < r.value ==> !OccursAt(s, t, j)
    ensures r.None? ==> forall j :: from <= j ==> !OccursAt(s, t, j)
    decreases |s| - from
  {
    if from + |t| > |s| then None
    else if OccursAt(s, t, from) then Some(from)
    else IndexOf(s, t, from + 1)
  }

  /** `s.split(sep)` for a non-empty separator string. */
  function Split(s: string, sep: string): (parts: seq<string>)
    requires |sep| > 0
    ensures |parts| >= 1
    decreases |s|
  {
    match IndexOf(s, sep, 0)
    case None => [s]
    case Some(i) => [s[..i]] + Split(s[i + |sep|..], sep)
  }

  /** `parts.join(sep)`. */
  function Join(parts: seq<string>, sep: string): string
  {
    if |parts| == 0 then ""
    else if |parts| == 1 then parts[0]
    else parts[0] + sep + Join(parts[1..], sep)
  }

  /** Joining the pieces of a split with the same separator gives the string back. */
  lemma {:induction false} JoinSplit(s: string, sep: string)
    requires |sep| > 0
    ensures Join(Split(s, sep), sep) == s
    decreases |s|
  {
    match IndexOf(s, sep, 0)
    case None =>
    case Some(i) =>
      var rest := s[i + |sep|..];
      JoinSplit(rest, sep);
      SplitAtFirst(s, sep, i);
      JoinCons(s[..i], Split(rest, sep), sep);
      CutAt(s, sep, i);
  }

  lemma SplitAtFirst(s: string, sep: string, i: nat)
    requires |sep| > 0 && IndexOf(s, sep, 0) == Some(i)
    ensures Split(s, sep) == [s[..i]] + Split(s[i + |sep|..], sep)
  {
  }

  lemma JoinCons(x: string, parts: seq<string>, sep: string)
    requires |parts| >= 1
    ensures Join([x] + parts, sep) == x + sep + Join(parts, sep)
  {
    assert ([x] + parts)[1..] == parts;
  }

  /** Cutting a string around an occurrence of `t`. */
  lemma CutAt(s: string, t: string, i: nat)
    requires OccursAt(s, t, i)
    ensures s == s[..i] + t + s[i + |t|..]
  {
    CutAround(s, i, |t|);
  }

  /** A string is its prefix, a middle piece and its suffix. */
  lemma CutAround(s: string, i: nat, n: nat)
    requires i + n <= |s|
    ensures s == s[..i] + s[i..i + n] + s[i + n..]
  {
  }

  /** No piece of a split contains the separator. */
  lemma {:induction false} SplitPiecesFree(s: string, sep: string)
    requires |sep| > 0
    ensures forall p, j :: p in Split(s, sep) ==> !OccursAt(p, sep, j)
    decreases |s|
  {
    match IndexOf(s, sep, 0)
    case None =>
    case Some(i) =>
      SplitPiecesFree(s[i + |sep|..], sep);
      var head := s[..i];
      forall j
        ensures !OccursAt(head, sep, j)
      {
        if OccursAt(head, sep, j) {
          OccursInPrefix(s, sep, i, j);
        }
      }
  }

  /** An occurrence inside a prefix is an occurrence in the whole string. */
  lemma OccursInPrefix(s: string, t: string, n: nat, j: int)
    requires n <= |s| && OccursAt(s[..n], t, j)
    ensures OccursAt(s, t, j) && j + |t| <= n
  {
    assert s[j..j + |t|] == s[..n][j..j + |t|];
  }

  /** The maximal runs of non-whitespace characters of `s[i..]`, in order. */
  function RunsFrom(s: string, i: nat): (ws: seq<string>)
    requires i <= |s|
    decreases |s| - i, 1
  {
    if i == |s| then []
    else if IsSpace(s[i]) then RunsFrom(s, i + 1)
    else var e := RunEnd(s, i); [s[i..e]] + RunsFrom(s, e)
  }

  /** End of the maximal non-whitespace run that starts at `i`. */
  function RunEnd(s: string, i: nat): (e: nat)
    requires i <= |s|
    ensures i <= e <= |s|
    ensures forall k :: i <= k < e ==> !IsSpace(s[k])
    ensures e == |s| || IsSpace(s[e])
    decreases |s| - i, 0
  {
    if i == |s| || IsSpace(s[i]) then i else RunEnd(s, i + 1)
  }

  /** `s.trim().split(/\s+/)`: the whitespace-separated words, or `[""]`
      when `s` is blank. */
  function Words(s: string): (ws: seq<string>)
    ensures |ws| >= 1
    ensures !IsBlank(s) ==> forall w :: w in ws ==> |w| > 0 && NoSpace(w)
  {
    if IsBlank(s) then [""] else
      WordsNonBlank(s);
      RunsAreWords(s, 0);
      RunsFrom(s, 0)
  }

  /** Every run is a non-empty, whitespace-free word. */
  lemma {:induction false} RunsAreWords(s: string, i: nat)
    requires i <= |s|
    ensures forall w :: w in RunsFrom(s, i) ==> |w| > 0 && NoSpace(w)
    decreases |s| - i
  {
    if i < |s| {
      if IsSpace(s[i]) {
        RunsAreWords(s, i + 1);
      } else {
        var e := RunEnd(s, i);
        assert e == RunEnd(s, i + 1);
        RunsAreWords(s, e);
        assert NoSpace(s[i..e]) by {
          forall k | 0 <= k < e - i
            ensures !IsSpace(s[i..e][k])
          {
            assert s[i..e][k] == s[i + k];
          }
        }
      }
    }
  }

  lemma {:induction false} RunsFromNonEmpty(s: string, i: nat)
    requires i <= |s|
    requires exists k :: i <= k < |s| && !IsSpace(s[k])
    ensures |RunsFrom(s, i)| >= 1
    decreases |s| - i
  {
    if IsSpace(s[i]) {
      RunsFromNonEmpty(s, i + 1);
    }
  }

  lemma WordsNonBlank(s: string)
    requires !IsBlank(s)
    ensures |RunsFrom(s, 0)| >= 1
  {
    RunsFromNonEmpty(s, 0);
  }

  /** A whitespace-free stretch ending at whitespace or at the end of `s` is
      the whole run. */
  lemma {:induction false} RunEndTo(s: string, i: nat, e: nat)
    requires i <= e <= |s| && NoSpace(s[i..e])
    requires e == |s| || IsSpace(s[e])
    ensures RunEnd(s, i) == e
    decreases e - i
  {
    if i < e {
      assert s[i] == s[i..e][0];
      assert s[i + 1..e] == s[i..e][1..];
      RunEndTo(s, i + 1, e);
    }
  }

  /** Words separated by single spaces come back out of `Words` unchanged. */
  lemma {:induction false} WordsOfJoin(ws: seq<string>)
    requires |ws| >= 1
    requires forall w :: w in ws ==> |w| > 0 && NoSpace(w)
    ensures Words(Join(ws, " ")) == ws
  {
    var s := Join(ws, " ");
    RunsOfJoin(ws);
    assert s[0] == ws[0][0];
    assert !IsBlank(s);
  }

  lemma {:induction false} RunsOfJoin(ws: seq<string>)
    requires |ws| >= 1
    requires forall w :: w in ws ==> |w| > 0 && NoSpace(w)
    ensures |Join(ws, " ")| > 0 && Join(ws, " ")[0] == ws[0][0]
    ensures RunsFrom(Join(ws, " "), 0) == ws
    decreases |ws|
  {
    var s := Join(ws, " ");
    var w := ws[0];
    RunEndOver(s, w, 0);
    if |ws| == 1 {
      assert RunsFrom(s, |w|) == [];
    } else {
      var t := Join(ws[1..], " ");
      RunsOfJoin(ws[1..]);
      assert s == w + " " + t;
      RunsFromShift(w + " ", t);
      assert RunsFrom(s, |w| + 1) == RunsFrom(t, 0);
      assert RunsFrom(s, |w|) == RunsFrom(s, |w| + 1);
    }
  }

  /** A run of non-space characters followed by a space or the end stops there. */
  lemma {:induction false} RunEndOver(s: string, w: string, i: nat)
    requires i <= |w| && StartsWith(s, w)
    requires NoSpace(w)
    requires |s| == |w| || IsSpace(s[|w|])
    ensures RunEnd(s, i) == |w|
    decreases |w| - i
  {
    if i < |w| {
      assert s[i] == w[i];
      RunEndOver(s, w, i + 1);
    }
  }

  lemma {:induction false} RunsFromShift(p: string, t: string)
    ensures RunsFrom(p + t, |p|) == RunsFrom(t, 0)
  {
    RunsFromShiftAt(p, t, 0);
  }

  lemma {:induction false} RunsFromShiftAt(p: string, t: string, i: nat)
    requires i <= |t|
    ensures RunsFrom(p + t, |p| + i) == RunsFrom(t, i)
    decreases |t| - i
  {
    if i < |t| {
      if IsSpace(t[i]) {
        RunsFromShiftAt(p, t, i + 1);
        RunsFromShiftSpace(p, t, i);
      } else {
        RunEndShift(p, t, i);
        var e := RunEnd(t, i);
        assert e == RunEnd(t, i + 1);
        RunsFromShiftAt(p, t, e);
        RunsFromShiftRun(p, t, i, e);
      }
    }
  }

  /** One shifting step over a whitespace character. */
  lemma RunsFromShiftSpace(p: string, t: string, i: nat)
    requires i < |t| && IsSpace(t[i])
    requires RunsFrom(p + t, |p| + i + 1) == RunsFrom(t, i + 1)
    ensures RunsFrom(p + t, |p| + i) == RunsFrom(t, i)
  {
    assert (p + t)[|p| + i] == t[i];
  }

  /** One shifting step over a whole run. */
  lemma RunsFromShiftRun(p: string, t: string, i: nat, e: nat)
    requires i < |t| && !IsSpace(t[i]) && e == RunEnd(t, i)
    requires RunEnd(p + t, |p| + i) == |p| + e
    requires RunsFrom(p + t, |p| + e) == RunsFrom(t, e)
    ensures RunsFrom(p + t, |p| + i) == RunsFrom(t, i)
  {
    assert (p + t)[|p| + i] == t[i];
    RunsFromAtRun(p + t, |p| + i, |p| + e);
    SliceAfterPrefix(p, t, i, e);
    RunsFromAtRun(t, i, e);
  }

  lemma SliceAfterPrefix(p: string, t: string, a: nat, b: nat)
    requires a <= b <= |t|
    ensures (p + t)[|p| + a..|p| + b] == t[a..b]
  {
  }

  lemma RunsFromAtRun(s: string, a: nat, e: nat)
    requires a < |s| && !IsSpace(s[a]) && e == RunEnd(s, a)
    ensures RunsFrom(s, a) == [s[a..e]] + RunsFrom(s, e)
  {
  }

  lemma {:induction false} RunEndShift(p: string, t: string, i: nat)
    requires i <= |t|
    ensures RunEnd(p + t, |p| + i) == |p| + RunEnd(t, i)
    decreases |t| - i
  {
    if i < |t| {
      assert (p + t)[|p| + i] == t[i];
      RunEndShift(p, t, i + 1);
    }
  }

  function DigitChar(d: nat): (c: char)
    requires d < 10
    ensures '0' <= c <= '9'
  {
    "0123456789"[d]
  }

  /** `n.toString()` for a natural number. */
  function NatToString(n: nat): (s: string)
    ensures |s| >= 1
    ensures forall k :: 0 <= k < |s| ==> '0' <= s[k] <= '9'
    decreases n
  {
    if n < 10 then [DigitChar(n)] else NatToString(n / 10) + [DigitChar(n % 10)]
  }

  /** `String(n)` for an integer. */
  function IntToString(n: int): (s: string)
    ensures |s| >= 1
  {
    if n < 0 then "-" + NatToString(-n) else NatToString(n)
  }
}
