/** The `@`-reference vocabulary of the chat composer: the kinds of reference,
    the resolved reference (`AtSymbolContext`), the raw scanner match
    (`IAtSymbolMatch`), the formatter `formatContextReference` and the scanner
    `findAtSymbolMatches`, which runs the global regular expression
    `/@(file|folder|link)?:?([^\s]+)/g` over a text. */
module AtSymbol {
  import opened Wrappers
  import opened Text

  datatype AtSymbolType = File | Folder | Link

  function TypeName(t: AtSymbolType): (s: string)
    ensures |s| >= 4
    ensures forall i :: 0 <= i < |s| ==> 'a' <= s[i] <= 'z'
  {
    match t
    case File => "file"
    case Folder => "folder"
    case Link => "link"
  }

  /** A parsed resource identifier; parsing and printing it are collaborators
      (see `Platform` in module FileExplorer). */
  datatype Uri = Uri(scheme: string, authority: string, path: string, query: string, fragment: string)

  datatype Metadata = Metadata(uri: Option<Uri>, title: Option<string>, description: Option<string>)

  /** A resolved reference. The source's field `type` is called `kind` here. */
  datatype AtSymbolContext = AtSymbolContext(kind: AtSymbolType, value: string, displayName: string, metadata: Metadata)

  /** A scanner match: the span `[start, end)` of the token, its value and
      the declared kind (`None` for the source's `null`). */
  datatype AtSymbolMatch = AtSymbolMatch(start: nat, end: nat, value: string, kind: Option<AtSymbolType>)

  /** `formatContextReference`: the `@kind:value` form of a reference. */
  function FormatContextReference(c: AtSymbolContext): (r: string)
    ensures |r| == |TypeName(c.kind)| + 2 + |c.value|
    ensures r[0] == '@' && r[|TypeName(c.kind)| + 1] == ':'
    ensures r[1..|TypeName(c.kind)| + 1] == TypeName(c.kind)
    ensures r[|TypeName(c.kind)| + 2..] == c.value
  {
    "@" + TypeName(c.kind) + ":" + c.value
  }

  // ---------------------------------------------------------------------------
  // The regular expression, position by position
  // ---------------------------------------------------------------------------

  /** The alternative of `(file|folder|link)` that matches at `q`, tried in
      that order; the three names are not prefixes of each other, so at most
      one matches. */
  function KindAt(text: string, q: nat): (k: Option<AtSymbolType>)
    requires q <= |text|
    ensures k.Some? ==> StartsWith(text[q..], TypeName(k.value))
  {
    if StartsWith(text[q..], "file") then Some(File)
    else if StartsWith(text[q..], "folder") then Some(Folder)
    else if StartsWith(text[q..], "link") then Some(Link)
    else None
  }

  /** `:?([^\s]+)` anchored at `r`: the span `(valueStart, end)` of the value.
      The colon is taken greedily, and given back when the value would
      otherwise be empty. */
  function ValueSpan(text: string, r: nat): (sp: Option<(nat, nat)>)
    requires r <= |text|
    ensures sp.Some? ==> r <= sp.value.0 < sp.value.1 == RunEnd(text, r)
    ensures sp.Some? ==> sp.value.0 == r || (sp.value.0 == r + 1 && text[r] == ':')
    ensures sp.None? <==> (r == |text| || IsSpace(text[r]))
  {
    var e := RunEnd(text, r);
    if e == r then None
    else if text[r] == ':' && r + 1 < e then Some((r + 1, e))
    else Some((r, e))
  }

  function KindText(k: Option<AtSymbolType>): string {
    if k.Some? then TypeName(k.value) else ""
  }

  /** What every match of the scanner satisfies: it starts at an `@`, runs
      to the next whitespace (or the end), and its token is `@`, the kind
      name if any, an optional colon, then the value, which is non-empty and
      free of whitespace. */
  ghost predicate WellFormed(text: string, m: AtSymbolMatch) {
    && m.start + 1 < m.end <= |text|
    && text[m.start] == '@'
    && !IsSpace(text[m.start + 1])
    && m.end == RunEnd(text, m.start + 1)
    && |m.value| > 0 && NoSpace(m.value)
    && (|| text[m.start..m.end] == "@" + KindText(m.kind) + m.value
        || text[m.start..m.end] == "@" + KindText(m.kind) + ":" + m.value)
  }

  /** Skipping a whitespace-free stretch does not move the end of the run. */
  lemma {:induction false} RunEndSkip(text: string, i: nat, j: nat)
    requires i <= j <= |text|
    requires NoSpace(text[i..j])
    ensures RunEnd(text, i) == RunEnd(text, j)
    decreases j - i
  {
    if i < j {
      assert text[i] == text[i..j][0];
      assert text[i + 1..j] == text[i..j][1..];
      RunEndSkip(text, i + 1, j);
    }
  }

  /** The pattern at `p` with the kind group taken: the kind name at `p + 1`,
      then `:?([^\s]+)` after it. */
  function TypedMatch(text: string, p: nat): (m: Option<AtSymbolMatch>)
    requires p < |text|
    ensures m.Some? ==> m.value.start == p < m.value.end <= |text|
  {
    match KindAt(text, p + 1)
    case None => None
    case Some(k) =>
      match ValueSpan(text, p + 1 + |TypeName(k)|)
      case None => None
      case Some(sp) => Some(AtSymbolMatch(p, sp.1, text[sp.0..sp.1], Some(k)))
  }

  /** The pattern at `p` with the kind group skipped: `:?([^\s]+)` right
      after the `@`. */
  function UntypedMatch(text: string, p: nat): (m: Option<AtSymbolMatch>)
    requires p < |text|
    ensures m.Some? ==> m.value.start == p < m.value.end <= |text|
  {
    match ValueSpan(text, p + 1)
    case None => None
    case Some(sp) => Some(AtSymbolMatch(p, sp.1, text[sp.0..sp.1], None))
  }

  /** The pattern tried at position `p`: an `@`, then the kind group if the
      rest can still match after it, otherwise without it. */
  function MatchAt(text: string, p: nat): (m: Option<AtSymbolMatch>)
    requires p < |text|
    ensures m.Some? ==> m.value.start == p < m.value.end <= |text|
  {
    if text[p] != '@' then None
    else if TypedMatch(text, p).Some? then TypedMatch(text, p)
    else UntypedMatch(text, p)
  }

  lemma TypedMatchWellFormed(text: string, p: nat)
    requires p < |text| && text[p] == '@' && TypedMatch(text, p).Some?
    ensures WellFormed(text, TypedMatch(text, p).value)
  {
    var q := p + 1;
    var k := KindAt(text, q).value;
    var r := q + |TypeName(k)|;
    var sp := ValueSpan(text, r).value;
    var m := TypedMatch(text, p).value;
    assert m == AtSymbolMatch(p, sp.1, text[sp.0..sp.1], Some(k));
    assert text[q..r] == TypeName(k);
    TypeNameNoSpace(k);
    RunEndSkip(text, q, r);
    assert text[q] == text[q..r][0];
    TokenText(text, p, TypeName(k), sp.0, sp.1);
    NoSpaceSlice(text, r, sp.0, sp.1);
  }

  /** The text of a token: `@`, the kind name, the optional colon and the
      value, laid end to end. */
  lemma TokenText(text: string, p: nat, name: string, s0: nat, s1: nat)
    requires p + 1 + |name| <= s0 < s1 <= |text|
    requires text[p] == '@' && text[p + 1..p + 1 + |name|] == name
    requires s0 == p + 1 + |name| || (s0 == p + 2 + |name| && text[p + 1 + |name|] == ':')
    ensures s0 == p + 1 + |name| ==> text[p..s1] == "@" + name + text[s0..s1]
    ensures s0 != p + 1 + |name| ==> text[p..s1] == "@" + name + ":" + text[s0..s1]
  {
    var r := p + 1 + |name|;
    assert text[p..s1] == [text[p]] + text[p + 1..r] + text[r..s0] + text[s0..s1];
    if s0 != r {
      assert text[r..s0] == [text[r]];
    }
  }

  /** A stretch inside a whitespace-free run is whitespace-free. */
  lemma NoSpaceSlice(text: string, r: nat, a: nat, b: nat)
    requires r <= a <= b <= |text| && NoSpace(text[r..b])
    ensures NoSpace(text[a..b])
  {
    forall i | 0 <= i < b - a
      ensures !IsSpace(text[a..b][i])
    {
      assert text[a..b][i] == text[r..b][a - r + i];
    }
  }

  /** The kind names hold no whitespace. */
  lemma TypeNameNoSpace(k: AtSymbolType)
    ensures NoSpace(TypeName(k))
  {
    forall i | 0 <= i < |TypeName(k)| ensures !IsSpace(TypeName(k)[i]) {
      assert 'a' <= TypeName(k)[i] <= 'z';
    }
  }

  lemma UntypedMatchWellFormed(text: string, p: nat)
    requires p < |text| && text[p] == '@' && UntypedMatch(text, p).Some?
    ensures WellFormed(text, UntypedMatch(text, p).value)
  {
    var q := p + 1;
    var sp := ValueSpan(text, q).value;
    var m := UntypedMatch(text, p).value;
    assert text[p..sp.1] == "@" + text[q..sp.0] + text[sp.0..sp.1];
    assert NoSpace(m.value) by {
      forall i | 0 <= i < |m.value| ensures !IsSpace(m.value[i]) {
        assert m.value[i] == text[q..sp.1][sp.0 - q + i];
      }
    }
  }

  lemma MatchAtWellFormed(text: string, p: nat)
    requires p < |text| && MatchAt(text, p).Some?
    ensures WellFormed(text, MatchAt(text, p).value)
  {
    if TypedMatch(text, p).Some? {
      TypedMatchWellFormed(text, p);
    } else {
      UntypedMatchWellFormed(text, p);
    }
  }

  /** What `regex.exec` returns when started at `lastIndex == i`: the match
      at the first position at or after `i` where the pattern matches. */
  function NextMatch(text: string, i: nat): (m: Option<AtSymbolMatch>)
    requires i <= |text|
    ensures m.Some? ==> i <= m.value.start < |text| && MatchAt(text, m.value.start) == m
    ensures m.Some? ==> forall j :: i <= j < m.value.start ==> MatchAt(text, j).None?
    ensures m.None? ==> forall j :: i <= j < |text| ==> MatchAt(text, j).None?
    decreases |text| - i
  {
    if i == |text| then None
    else match MatchAt(text, i)
      case Some(m) => Some(m)
      case None => NextMatch(text, i + 1)
  }

  /** All matches from `lastIndex == i` on, each search resuming at the end
      of the previous match. */
  function MatchesFrom(text: string, i: nat): seq<AtSymbolMatch>
    requires i <= |text|
    decreases |text| - i
  {
    match NextMatch(text, i)
    case None => []
    case Some(m) => [m] + MatchesFrom(text, m.end)
  }

  /** The list `findAtSymbolMatches(text)` returns. */
  function Scan(text: string): seq<AtSymbolMatch> {
    MatchesFrom(text, 0)
  }

  // ---------------------------------------------------------------------------
  // The scanner as the source runs it
  // ---------------------------------------------------------------------------

  /** `regex.exec(text)` with the regex's `lastIndex` at `lastIndex`. */
  method Exec(text: string, lastIndex: nat) returns (m: Option<AtSymbolMatch>)
    requires lastIndex <= |text|
    ensures m == NextMatch(text, lastIndex)
  {
    var p := lastIndex;
    while p < |text|
      invariant lastIndex <= p <= |text|
      invariant NextMatch(text, lastIndex) == NextMatch(text, p)
    {
      m := MatchAt(text, p);
      if m.Some? {
        return;
      }
      p := p + 1;
    }
    m := None;
  }

  /** `findAtSymbolMatches`: the `while (regex.exec(...))` loop pushing every match. */
  method FindAtSymbolMatches(text: string) returns (matches: seq<AtSymbolMatch>)
    ensures matches == Scan(text)
  {
    matches := [];
    var lastIndex := 0;
    var m := Exec(text, lastIndex);
    while m.Some?
      invariant lastIndex <= |text|
      invariant m == NextMatch(text, lastIndex)
      invariant matches + MatchesFrom(text, lastIndex) == Scan(text)
      decreases |text| - lastIndex
    {
      var found := m.value;
      MatchesFromStep(text, lastIndex, found);
      ShiftFront(matches, found, MatchesFrom(text, found.end), Scan(text));
      matches := matches + [found];
      lastIndex := found.end;
      m := Exec(text, lastIndex);
    }
  }

  /** A found match is the head of the matches from the point it was
      searched from. */
  lemma MatchesFromStep(text: string, i: nat, m: AtSymbolMatch)
    requires i <= |text| && NextMatch(text, i) == Some(m)
    ensures m.end <= |text|
    ensures MatchesFrom(text, i) == [m] + MatchesFrom(text, m.end)
  {
  }

  lemma ShiftFront<T>(a: seq<T>, x: T, b: seq<T>, c: seq<T>)
    requires a + ([x] + b) == c
    ensures (a + [x]) + b == c
  {
    assert a + ([x] + b) == (a + [x]) + b;
  }

  // ---------------------------------------------------------------------------
  // Properties of the scanner
  // ---------------------------------------------------------------------------

  /** A text without `@` has no match. */
  lemma {:induction false} NoAtNoMatches(text: string)
    requires forall k :: 0 <= k < |text| ==> text[k] != '@'
    ensures Scan(text) == []
  {
    match NextMatch(text, 0)
    case None =>
    case Some(m) =>
      assert false;
  }

  /** Matches lie at or after the resume point, are well formed, and come out
      in increasing, non-overlapping order. */
  lemma MatchesFromOrdered(text: string, i: nat)
    requires i <= |text|
    ensures forall k :: 0 <= k < |MatchesFrom(text, i)| ==>
      i <= MatchesFrom(text, i)[k].start && WellFormed(text, MatchesFrom(text, i)[k])
    ensures forall k, l :: 0 <= k < l < |MatchesFrom(text, i)| ==>
      MatchesFrom(text, i)[k].end <= MatchesFrom(text, i)[l].start
  {
    MatchesFromWellFormed(text, i);
    MatchesFromIncreasing(text, i);
  }

  lemma {:induction false} MatchesFromWellFormed(text: string, i: nat)
    requires i <= |text|
    ensures forall k :: 0 <= k < |MatchesFrom(text, i)| ==> WellFormed(text, MatchesFrom(text, i)[k])
    decreases |text| - i
  {
    match NextMatch(text, i)
    case None =>
    case Some(m) =>
      MatchAtWellFormed(text, m.start);
      MatchesFromWellFormed(text, m.end);
      var ms, rest := MatchesFrom(text, i), MatchesFrom(text, m.end);
      assert ms == [m] + rest;
  }

  lemma {:induction false} MatchesFromIncreasing(text: string, i: nat)
    requires i <= |text|
    ensures forall k :: 0 <= k < |MatchesFrom(text, i)| ==> i <= MatchesFrom(text, i)[k].start
    ensures forall k, l :: 0 <= k < l < |MatchesFrom(text, i)| ==>
      MatchesFrom(text, i)[k].end <= MatchesFrom(text, i)[l].start
    decreases |text| - i
  {
    match NextMatch(text, i)
    case None =>
    case Some(m) =>
      MatchesFromIncreasing(text, m.end);
      var rest := MatchesFrom(text, m.end);
      assert MatchesFrom(text, i) == [m] + rest;
      ConsIncreasing(i, m, rest);
  }

  /** A match placed before matches that start at or after its end keeps
      the list increasing. */
  lemma ConsIncreasing(i: nat, m: AtSymbolMatch, rest: seq<AtSymbolMatch>)
    requires i <= m.start <= m.end
    requires forall k :: 0 <= k < |rest| ==> m.end <= rest[k].start
    requires forall k, l :: 0 <= k < l < |rest| ==> rest[k].end <= rest[l].start
    ensures forall k :: 0 <= k < |[m] + rest| ==> i <= ([m] + rest)[k].start
    ensures forall k, l :: 0 <= k < l < |[m] + rest| ==> ([m] + rest)[k].end <= ([m] + rest)[l].start
  {
    var ms := [m] + rest;
    forall k | 0 <= k < |ms|
      ensures i <= ms[k].start
    {
      if k > 0 {
        assert ms[k] == rest[k - 1];
      }
    }
    forall k, l | 0 <= k < l < |ms|
      ensures ms[k].end <= ms[l].start
    {
      assert ms[l] == rest[l - 1];
      if k > 0 {
        assert ms[k] == rest[k - 1];
      }
    }
  }

  lemma ScanOrdered(text: string)
    ensures forall k :: 0 <= k < |Scan(text)| ==> WellFormed(text, Scan(text)[k])
    ensures forall k, l :: 0 <= k < l < |Scan(text)| ==> Scan(text)[k].end <= Scan(text)[l].start
  {
    MatchesFromOrdered(text, 0);
  }

  /** An `@` followed by a non-whitespace character always matches. */
  lemma MatchAtSome(text: string, p: nat)
    requires p + 1 < |text| && text[p] == '@' && !IsSpace(text[p + 1])
    ensures MatchAt(text, p).Some?
  {
    assert ValueSpan(text, p + 1).Some?;
  }

  /** Every `@` followed by a non-whitespace character lies inside some match:
      either it starts one or an earlier match's value swallowed it. */
  lemma {:induction false} MatchesFromCover(text: string, i: nat, p: nat)
    requires i <= p && p + 1 < |text| && text[p] == '@' && !IsSpace(text[p + 1])
    ensures exists k :: (0 <= k < |MatchesFrom(text, i)| &&
      MatchesFrom(text, i)[k].start <= p < MatchesFrom(text, i)[k].end)
    decreases |text| - i
  {
    MatchAtSome(text, p);
    match NextMatch(text, i)
    case None =>
    case Some(m) =>
      var ms := MatchesFrom(text, i);
      assert ms[0] == m;
      if p < m.start {
      } else if p < m.end {
        assert ms[0].start <= p < ms[0].end;
      } else {
        MatchesFromCover(text, m.end, p);
        var k :| 0 <= k < |MatchesFrom(text, m.end)| &&
          MatchesFrom(text, m.end)[k].start <= p < MatchesFrom(text, m.end)[k].end;
        assert ms[k + 1] == MatchesFrom(text, m.end)[k];
      }
  }

  lemma ScanCovers(text: string, p: nat)
    requires p + 1 < |text| && text[p] == '@' && !IsSpace(text[p + 1])
    ensures exists k :: 0 <= k < |Scan(text)| && Scan(text)[k].start <= p < Scan(text)[k].end
  {
    MatchesFromCover(text, 0, p);
    var k :| 0 <= k < |MatchesFrom(text, 0)| &&
      MatchesFrom(text, 0)[k].start <= p < MatchesFrom(text, 0)[k].end;
    assert Scan(text)[k] == MatchesFrom(text, 0)[k];
  }

  /** A formatted reference with a non-empty, whitespace-free value, placed
      at `p` and followed by whitespace or the end of the text, is what the
      pattern matches at `p`: its kind and value come back. */
  lemma ReferenceMatchAt(t: string, p: nat, c: AtSymbolContext)
    requires |c.value| > 0 && NoSpace(c.value)
    requires p + |FormatContextReference(c)| <= |t|
    requires t[p..p + |FormatContextReference(c)|] == FormatContextReference(c)
    requires p + |FormatContextReference(c)| == |t| || IsSpace(t[p + |FormatContextReference(c)|])
    ensures MatchAt(t, p) == Some(AtSymbolMatch(p, p + |FormatContextReference(c)|, c.value, Some(c.kind)))
  {
    var s := FormatContextReference(c);
    var name := TypeName(c.kind);
    var e := p + |s|;
    var r := p + 1 + |name|;
    assert t[p] == s[0];
    assert t[p + 1..r] == s[1..|name| + 1] by { SubSlice(t, p, e, 1, |name| + 1); }
    KindAtName(t, p + 1, c.kind);
    assert t[r] == s[|name| + 1];
    assert t[r + 1..e] == c.value by { SubSlice(t, p, e, |name| + 2, |s|); }
    ColonValueSpan(t, r, e);
    assert TypedMatch(t, p) == Some(AtSymbolMatch(p, e, c.value, Some(c.kind)));
  }

  /** A slice of a slice is a slice. */
  lemma SubSlice(t: string, a: nat, b: nat, i: nat, j: nat)
    requires a <= b <= |t| && i <= j <= b - a
    ensures t[a..b][i..j] == t[a + i..a + j]
  {
    assert forall k | 0 <= k < j - i :: t[a..b][i..j][k] == t[a + i + k];
  }

  /** A kind name at `q` is the alternative `(file|folder|link)` takes there. */
  lemma KindAtName(t: string, q: nat, k: AtSymbolType)
    requires q + |TypeName(k)| <= |t| && t[q..q + |TypeName(k)|] == TypeName(k)
    ensures KindAt(t, q) == Some(k)
  {
    var name := TypeName(k);
    assert t[q..][..|name|] == name;
    assert t[q] == name[0] && t[q + 1] == name[1];
  }

  /** A colon followed by a whitespace-free value up to whitespace or the
      end: the value starts after the colon. */
  lemma ColonValueSpan(t: string, r: nat, e: nat)
    requires r + 1 < e <= |t| && t[r] == ':' && NoSpace(t[r + 1..e])
    requires e == |t| || IsSpace(t[e])
    ensures ValueSpan(t, r) == Some((r + 1, e))
  {
    assert NoSpace(t[r..e]) by {
      forall k | 0 <= k < e - r
        ensures !IsSpace(t[r..e][k])
      {
        if k == 0 {
          assert t[r..e][k] == ':';
        } else {
          assert t[r..e][k] == t[r + 1..e][k - 1];
        }
      }
    }
    RunEndTo(t, r, e);
  }

  /** Round trip: a reference whose value is non-empty and free of whitespace
      scans back as exactly one match spanning the whole formatted string,
      with the reference's kind and value. */
  lemma FormatScanRoundTrip(c: AtSymbolContext)
    requires |c.value| > 0 && NoSpace(c.value)
    ensures
      var s := FormatContextReference(c);
      Scan(s) == [AtSymbolMatch(0, |s|, c.value, Some(c.kind))]
  {
    var s := FormatContextReference(c);
    assert s[0..|s|] == s;
    ReferenceMatchAt(s, 0, c);
    var m := AtSymbolMatch(0, |s|, c.value, Some(c.kind));
    assert NextMatch(s, 0) == Some(m);
    assert MatchesFrom(s, |s|) == [];
  }

  lemma {:induction false} RunEndAll(s: string, r: nat)
    requires r <= |s| && NoSpace(s[r..])
    ensures RunEnd(s, r) == |s|
  {
    RunEndTo(s, r, |s|);
  }

  /** Printable ASCII characters other than the space are not whitespace. */
  lemma PrintableNoSpace(s: string)
    requires forall k :: 0 <= k < |s| ==> '!' <= s[k] <= '~'
    ensures NoSpace(s)
  {
  }

  /** The kind group is tried greedily: `@filename` is a `file` reference to
      `name`, while a bare `@file` has no kind and the value `file`. */
  lemma GreedyKind()
    ensures Scan("@filename") == [AtSymbolMatch(0, 9, "name", Some(File))]
    ensures Scan("@file") == [AtSymbolMatch(0, 5, "file", None)]
  {
    var a := "@filename";
    assert a[1..][..4] == "file";
    assert KindAt(a, 1) == Some(File);
    assert a[5..] == "name";
    PrintableNoSpace(a[5..]);
    RunEndAll(a, 5);
    assert ValueSpan(a, 5) == Some((5, 9));
    assert a[5..9] == "name";
    assert TypedMatch(a, 0) == Some(AtSymbolMatch(0, 9, "name", Some(File)));
    assert NextMatch(a, 0) == Some(AtSymbolMatch(0, 9, "name", Some(File)));
    var b := "@file";
    assert b[1..][..4] == "file";
    assert KindAt(b, 1) == Some(File);
    assert ValueSpan(b, 5) == None;
    assert TypedMatch(b, 0) == None;
    assert b[1..] == "file";
    PrintableNoSpace(b[1..]);
    RunEndAll(b, 1);
    assert b[1] == 'f' && b[1..5] == "file";
    assert ValueSpan(b, 1) == Some((1, 5));
    assert NextMatch(b, 0) == Some(AtSymbolMatch(0, 5, "file", None));
  }

  /** A lone colon is a value of its own: `@:` is an untyped match with value
      `:`, and `@file:` a `file` match with value `:`, since `[^\s]+` takes the
      colon back from `:?`. */
  lemma ColonValue()
    ensures Scan("@:") == [AtSymbolMatch(0, 2, ":", None)]
    ensures Scan("@file:") == [AtSymbolMatch(0, 6, ":", Some(File))]
  {
    var a := "@:";
    assert !StartsWith(a[1..], "file") && !StartsWith(a[1..], "folder") && !StartsWith(a[1..], "link");
    assert TypedMatch(a, 0) == None;
    assert a[1..] == ":";
    PrintableNoSpace(a[1..]);
    RunEndAll(a, 1);
    assert a[1] == ':' && a[1..2] == ":";
    assert ValueSpan(a, 1) == Some((1, 2));
    assert NextMatch(a, 0) == Some(AtSymbolMatch(0, 2, ":", None));
    var b := "@file:";
    assert b[1..][..4] == "file";
    assert KindAt(b, 1) == Some(File);
    assert b[5..] == ":";
    PrintableNoSpace(b[5..]);
    RunEndAll(b, 5);
    assert b[5] == ':' && b[5..6] == ":";
    assert ValueSpan(b, 5) == Some((5, 6));
    assert TypedMatch(b, 0) == Some(AtSymbolMatch(0, 6, ":", Some(File)));
    assert NextMatch(b, 0) == Some(AtSymbolMatch(0, 6, ":", Some(File)));
  }
}
