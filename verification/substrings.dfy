/**
 * Substring search, `str.split`, `str.join`, `str.replace` and `str.strip`
 * with Python's meaning.
 */
module Substrings {
  import opened Options
  import opened Chars

  predicate OccursAt(s: string, pat: string, i: nat) {
    i + |pat| <= |s| && s[i..i + |pat|] == pat
  }

  lemma OccursAtTail(s: string, pat: string, i: nat)
    requires |s| > 0
    ensures OccursAt(s, pat, i + 1) <==> OccursAt(s[1..], pat, i)
  {
    if i + 1 + |pat| <= |s| {
      assert s[1..][i..i + |pat|] == s[i + 1..i + 1 + |pat|];
    }
  }

  /** `s.find(pat)`: the leftmost position where `pat` occurs in `s`, if any. */
  function IndexOf(s: string, pat: string): (r: Option<nat>)
    ensures r.Some? ==> OccursAt(s, pat, r.value)
    ensures r.Some? ==> forall j :: 0 <= j < r.value ==> !OccursAt(s, pat, j)
    ensures r.None? ==> forall j :: 0 <= j <= |s| ==> !OccursAt(s, pat, j)
    decreases |s|
  {
    if pat <= s then
      assert s[0..|pat|] == pat;
      Some(0)
    else if s == [] then None
    else
      var r := IndexOf(s[1..], pat);
      assert !OccursAt(s, pat, 0);
      assert forall j: nat :: 0 < j <= |s| ==> (OccursAt(s, pat, j) <==> OccursAt(s[1..], pat, j - 1)) by {
        forall j: nat | 0 < j <= |s|
          ensures OccursAt(s, pat, j) <==> OccursAt(s[1..], pat, j - 1)
        {
          OccursAtTail(s, pat, j - 1);
        }
      }
      match r
      case None => None
      case Some(i) => Some(i + 1)
  }

  /** `pat in s`. */
  predicate Contains(s: string, pat: string) {
    IndexOf(s, pat).Some?
  }

  /** `Contains` holds exactly when the pattern occurs somewhere. */
  lemma ContainsIff(s: string, pat: string, i: nat)
    requires OccursAt(s, pat, i)
    ensures Contains(s, pat)
  {
  }

  /** `sep.join(parts)`. */
  function Join(parts: seq<string>, sep: string): string {
    if |parts| == 0 then ""
    else if |parts| == 1 then parts[0]
    else parts[0] + sep + Join(parts[1..], sep)
  }

  /** `s.split(sep)` for a non-empty separator. */
  function Split(s: string, sep: string): (parts: seq<string>)
    requires |sep| > 0
    ensures |parts| >= 1
    ensures IndexOf(s, sep).Some? ==> |parts| >= 2
    decreases |s|
  {
    match IndexOf(s, sep)
    case None => [s]
    case Some(i) => [s[..i]] + Split(s[i + |sep|..], sep)
  }

  /** `s.split(sep, maxsplit)`: at most `maxsplit` splits, the rest stays in the last part. */
  function SplitMax(s: string, sep: string, maxsplit: nat): (parts: seq<string>)
    requires |sep| > 0
    ensures 1 <= |parts| <= maxsplit + 1
    decreases maxsplit
  {
    if maxsplit == 0 then [s]
    else match IndexOf(s, sep)
      case None => [s]
      case Some(i) => [s[..i]] + SplitMax(s[i + |sep|..], sep, maxsplit - 1)
  }

  /** Joining the parts of a split with the separator gives back the string. */
  lemma {:induction false} JoinSplit(s: string, sep: string)
    requires |sep| > 0
    ensures Join(Split(s, sep), sep) == s
    decreases |s|
  {
    match IndexOf(s, sep)
    case None =>
    case Some(i) =>
      JoinSplit(s[i + |sep|..], sep);
      assert s == s[..i] + sep + s[i + |sep|..];
  }

  /** No part of a full split contains the separator. */
  lemma {:induction false} SplitPartsFree(s: string, sep: string, k: nat)
    requires |sep| > 0 && k < |Split(s, sep)|
    ensures !Contains(Split(s, sep)[k], sep)
    decreases |s|
  {
    match IndexOf(s, sep)
    case None =>
    case Some(i) =>
      SplitAt(s, sep, i);
      if k == 0 {
        BeforeFirstFree(s, sep, i);
      } else {
        SplitPartsFree(s[i + |sep|..], sep, k - 1);
      }
  }

  /** The text before the first occurrence holds no occurrence. */
  lemma BeforeFirstFree(s: string, sep: string, i: nat)
    requires |sep| > 0 && IndexOf(s, sep) == Some(i)
    ensures !Contains(s[..i], sep)
  {
    forall j: nat | j <= i
      ensures !OccursAt(s[..i], sep, j)
    {
      if j + |sep| <= i {
        assert s[..i][j..j + |sep|] == s[j..j + |sep|];
        assert !OccursAt(s, sep, j);
      }
    }
  }

  /** A separator whose first character does not occur in `a` is first found right after `a`. */
  lemma IndexOfAfter(a: string, sep: string, b: string)
    requires |sep| > 0 && forall i :: 0 <= i < |a| ==> a[i] != sep[0]
    ensures IndexOf(a + sep + b, sep) == Some(|a|)
  {
    var s := a + sep + b;
    assert s[|a|..|a| + |sep|] == sep;
    assert OccursAt(s, sep, |a|);
    forall j | 0 <= j < |a|
      ensures !OccursAt(s, sep, j)
    {
      assert s[j] == a[j];
      assert j + |sep| <= |s| ==> s[j..j + |sep|][0] == s[j];
    }
  }

  /** A string without the separator's first character does not contain the separator. */
  lemma AbsentFirstChar(s: string, sep: string)
    requires |sep| > 0 && forall i :: 0 <= i < |s| ==> s[i] != sep[0]
    ensures IndexOf(s, sep).None?
  {
    forall j | 0 <= j <= |s|
      ensures !OccursAt(s, sep, j)
    {
      assert j + |sep| <= |s| ==> s[j..j + |sep|][0] == s[j];
    }
  }

  /** The first part of a split is everything before the first separator. */
  lemma SplitFirst(s: string, sep: string, i: nat)
    requires |sep| > 0 && IndexOf(s, sep) == Some(i)
    ensures Split(s, sep)[0] == s[..i]
  {
    SplitAt(s, sep, i);
  }

  /** Text appended after the first occurrence does not move it. */
  lemma IndexOfExtend(s: string, pat: string, t: string, i: nat)
    requires IndexOf(s, pat) == Some(i)
    ensures IndexOf(s + t, pat) == Some(i)
  {
    var st := s + t;
    assert st[i..i + |pat|] == s[i..i + |pat|];
    forall j | 0 <= j < i
      ensures !OccursAt(st, pat, j)
    {
      assert !OccursAt(s, pat, j);
      assert st[j..j + |pat|] == s[j..j + |pat|];
    }
    IndexOfIs(st, pat, i);
  }

  /** An occurrence with none before it is the one `find` reports. */
  lemma IndexOfIs(s: string, pat: string, i: nat)
    requires OccursAt(s, pat, i)
    requires forall j :: 0 <= j < i ==> !OccursAt(s, pat, j)
    ensures IndexOf(s, pat) == Some(i)
  {
    hide IndexOf;
  }

  lemma SliceIndex(s: string, lo: nat, hi: nat, k: nat)
    requires lo <= hi <= |s| && k < hi - lo
    ensures s[lo..hi][k] == s[lo + k]
  {
  }

  /**
   * No occurrence starts inside a text free of the pattern when the
   * character after that text occurs in the pattern at most at its start.
   */
  lemma NoOccurrenceWithin(a: string, rest: string, pat: string)
    requires |pat| > 0 && !Contains(a, pat) && rest != []
    requires forall k :: 0 < k < |pat| ==> pat[k] != rest[0]
    ensures forall j :: 0 <= j < |a| ==> !OccursAt(a + rest, pat, j)
  {
    var s := a + rest;
    forall j | 0 <= j < |a|
      ensures !OccursAt(s, pat, j)
    {
      if j + |pat| <= |a| {
        assert s[j..j + |pat|] == a[j..j + |pat|];
        assert !OccursAt(a, pat, j);
      } else if j + |pat| <= |s| {
        assert s[|a|] == rest[0];
        SliceIndex(s, j, j + |pat|, |a| - j);
      }
    }
  }

  /**
   * A pattern whose first character occurs nowhere else in it, after a text
   * that does not contain it, is first found where it is placed.
   */
  lemma FirstAtJoin(a: string, pat: string, b: string)
    requires |pat| > 0 && !Contains(a, pat)
    requires forall k :: 0 < k < |pat| ==> pat[k] != pat[0]
    ensures IndexOf(a + pat + b, pat) == Some(|a|)
  {
    var s := a + pat + b;
    assert s == a + (pat + b);
    NoOccurrenceWithin(a, pat + b, pat);
    assert s[|a|..|a| + |pat|] == pat;
    IndexOfIs(s, pat, |a|);
  }

  /**
   * The first part of a split keeps a prefix `a + c` when `a` holds no
   * separator, `c` starts with a character the separator lacks, and no
   * character of `c` begins the separator.
   */
  lemma SplitFirstKeeps(a: string, c: string, b: string, sep: string)
    requires |sep| > 0 && |c| > 0 && !Contains(a, sep)
    requires forall k :: 0 <= k < |sep| ==> sep[k] != c[0]
    requires forall k :: 0 <= k < |c| ==> c[k] != sep[0]
    ensures a + c <= Split(a + c + b, sep)[0]
  {
    hide IndexOf;
    var s := a + c + b;
    NothingBefore(a, c, b, sep);
    match IndexOf(s, sep)
    case None =>
    case Some(m) =>
      SplitFirst(s, sep, m);
      assert s[..m][..|a| + |c|] == a + c;
  }

  lemma NothingBefore(a: string, c: string, b: string, sep: string)
    requires |sep| > 0 && |c| > 0 && !Contains(a, sep)
    requires forall k :: 0 <= k < |sep| ==> sep[k] != c[0]
    requires forall k :: 0 <= k < |c| ==> c[k] != sep[0]
    ensures IndexOf(a + c + b, sep).Some? ==> IndexOf(a + c + b, sep).value >= |a| + |c|
  {
    hide IndexOf;
    var s := a + c + b;
    assert s == a + (c + b);
    NoOccurrenceWithin(a, c + b, sep);
    forall j | |a| <= j < |a| + |c|
      ensures !OccursAt(s, sep, j)
    {
      if j + |sep| <= |s| {
        assert s[j] == c[j - |a|];
        SliceIndex(s, j, j + |sep|, 0);
      }
    }
  }

  /** `s.replace(target, repl)`: every non-overlapping occurrence, scanning left to right. */
  function Replace(s: string, target: string, repl: string): string
    requires |target| > 0
    decreases |s|
  {
    if s == [] then []
    else if target <= s then repl + Replace(s[|target|..], target, repl)
    else [s[0]] + Replace(s[1..], target, repl)
  }

  lemma SplitNotAtStart(s: string, sep: string)
    requires |sep| > 0 && |s| > 0 && !(sep <= s)
    ensures Split(s, sep) == [[s[0]] + Split(s[1..], sep)[0]] + Split(s[1..], sep)[1..]
  {
    match IndexOf(s[1..], sep)
    case None => SplitNotAtStartNone(s, sep);
    case Some(i) => SplitNotAtStartSome(s, sep, i);
  }

  lemma SplitNotAtStartNone(s: string, sep: string)
    requires |sep| > 0 && |s| > 0 && !(sep <= s) && IndexOf(s[1..], sep).None?
    ensures Split(s, sep) == [[s[0]] + Split(s[1..], sep)[0]] + Split(s[1..], sep)[1..]
  {
    assert Split(s, sep) == [s];
    assert Split(s[1..], sep) == [s[1..]];
    assert [s[0]] + s[1..] == s;
  }

  lemma SplitAt(s: string, sep: string, i: nat)
    requires |sep| > 0 && IndexOf(s, sep) == Some(i)
    ensures Split(s, sep) == [s[..i]] + Split(s[i + |sep|..], sep)
  {
    hide IndexOf;
  }

  lemma SplitNotAtStartSome(s: string, sep: string, i: nat)
    requires |sep| > 0 && |s| > 0 && !(sep <= s) && IndexOf(s[1..], sep) == Some(i)
    ensures Split(s, sep) == [[s[0]] + Split(s[1..], sep)[0]] + Split(s[1..], sep)[1..]
  {
    var t := s[1..];
    SplitAt(t, sep, i);
    IndexOfSkip(s, sep, i);
    SplitAt(s, sep, i + 1);
    SlicesPastFirst(s, i, |sep|);
    var st := Split(t, sep);
    var rest := Split(t[i + |sep|..], sep);
    assert st[0] == t[..i] && st[1..] == rest;
    calc {
      Split(s, sep);
      [s[..i + 1]] + rest;
      [[s[0]] + st[0]] + st[1..];
    }
  }

  lemma SlicesPastFirst(s: string, i: nat, n: nat)
    requires i + 1 + n <= |s|
    ensures s[i + 1 + n..] == s[1..][i + n..]
    ensures s[..i + 1] == [s[0]] + s[1..][..i]
  {
  }

  lemma IndexOfSkip(s: string, sep: string, i: nat)
    requires |s| > 0 && !(sep <= s) && IndexOf(s[1..], sep) == Some(i)
    ensures IndexOf(s, sep) == Some(i + 1)
  {
  }

  lemma JoinConsFirst(p: string, t: seq<string>, sep: string)
    requires |t| >= 1
    ensures Join([p + t[0]] + t[1..], sep) == p + Join(t, sep)
  {
    var u := [p + t[0]] + t[1..];
    if |t| > 1 {
      assert u[1..] == t[1..];
    }
  }

  /**
   * `replace` agrees with its reference definition, `repl.join(s.split(target))`:
   * every occurrence found by the left-to-right scan is a split point and
   * nothing else changes.
   */
  lemma {:induction false} ReplaceIsJoinSplit(s: string, target: string, repl: string)
    requires |target| > 0
    ensures Replace(s, target, repl) == Join(Split(s, target), repl)
    decreases |s|
  {
    if s == [] {
    } else if target <= s {
      ReplaceIsJoinSplit(s[|target|..], target, repl);
      ReplaceStepMatch(s, target, repl);
    } else {
      ReplaceIsJoinSplit(s[1..], target, repl);
      ReplaceStepSkip(s, target, repl);
    }
  }

  lemma ReplaceStepMatch(s: string, target: string, repl: string)
    requires |target| > 0 && target <= s
    requires Replace(s[|target|..], target, repl) == Join(Split(s[|target|..], target), repl)
    ensures Replace(s, target, repl) == Join(Split(s, target), repl)
  {
    var rest := s[|target|..];
    var tail := Split(rest, target);
    SplitAtStart(s, target);
    ReplaceAtStart(s, target, repl);
    JoinCons([], tail, repl);
    assert [] + repl == repl;
  }

  lemma SplitAtStart(s: string, sep: string)
    requires |sep| > 0 && sep <= s
    ensures Split(s, sep) == [[]] + Split(s[|sep|..], sep)
  {
    IndexOfAtStart(s, sep);
    SplitAt(s, sep, 0);
    assert s[..0] == [];
  }

  lemma ReplaceAtStart(s: string, target: string, repl: string)
    requires |target| > 0 && target <= s
    ensures Replace(s, target, repl) == repl + Replace(s[|target|..], target, repl)
  {
  }

  lemma IndexOfAtStart(s: string, pat: string)
    requires pat <= s
    ensures IndexOf(s, pat) == Some(0)
  {
  }

  lemma JoinCons(p: string, t: seq<string>, sep: string)
    requires |t| >= 1
    ensures Join([p] + t, sep) == p + sep + Join(t, sep)
  {
    assert ([p] + t)[1..] == t;
  }

  lemma ReplaceStepSkip(s: string, target: string, repl: string)
    requires |target| > 0 && |s| > 0 && !(target <= s)
    requires Replace(s[1..], target, repl) == Join(Split(s[1..], target), repl)
    ensures Replace(s, target, repl) == Join(Split(s, target), repl)
  {
    SplitNotAtStart(s, target);
    JoinConsFirst([s[0]], Split(s[1..], target), repl);
  }

  /** A string without the pattern is left as it is by `replace`. */
  lemma ReplaceAbsent(s: string, target: string, repl: string)
    requires |target| > 0 && !Contains(s, target)
    ensures Replace(s, target, repl) == s
  {
    ReplaceIsJoinSplit(s, target, repl);
  }

  /** `s.lstrip(chars)` with the stripped characters given as a predicate. */
  function TrimStart(s: string, drop: char -> bool): (r: string)
    ensures |r| <= |s| && r == s[|s| - |r|..]
    ensures r == [] || !drop(r[0])
    ensures forall i :: 0 <= i < |s| - |r| ==> drop(s[i])
    decreases |s|
  {
    if s != [] && drop(s[0]) then TrimStart(s[1..], drop) else s
  }

  /** `s.rstrip(chars)` with the stripped characters given as a predicate. */
  function TrimEnd(s: string, drop: char -> bool): (r: string)
    ensures |r| <= |s| && r == s[..|r|]
    ensures r == [] || !drop(r[|r| - 1])
    ensures forall i :: |r| <= i < |s| ==> drop(s[i])
    decreases |s|
  {
    if s != [] && drop(s[|s| - 1]) then TrimEnd(s[..|s| - 1], drop) else s
  }

  /** `s.strip(chars)`: neither end of the result is a stripped character; the middle is untouched. */
  function Trim(s: string, drop: char -> bool): (r: string)
    ensures r == [] || (!drop(r[0]) && !drop(r[|r| - 1]))
    ensures |r| <= |TrimStart(s, drop)| && r == TrimStart(s, drop)[..|r|]
  {
    TrimEnd(TrimStart(s, drop), drop)
  }

  predicate IsStripped(s: string) {
    s == [] || (!IsSpace(s[0]) && !IsSpace(s[|s| - 1]))
  }

  /** `s.strip()`: the whitespace at both ends removed. */
  function Strip(s: string): (r: string)
    ensures IsStripped(r)
    ensures |r| <= |s|
  {
    Trim(s, IsSpace)
  }

  /** `lstrip` removes exactly a leading run of dropped characters. */
  lemma {:induction false} TrimStartSkips(pre: string, rest: string, drop: char -> bool)
    requires forall i :: 0 <= i < |pre| ==> drop(pre[i])
    requires rest == [] || !drop(rest[0])
    ensures TrimStart(pre + rest, drop) == rest
    decreases |pre|
  {
    if pre != [] {
      assert (pre + rest)[1..] == pre[1..] + rest;
      TrimStartSkips(pre[1..], rest, drop);
    } else {
      assert pre + rest == rest;
    }
  }

  /** `rstrip` removes exactly a trailing run of dropped characters. */
  lemma {:induction false} TrimEndSkips(rest: string, post: string, drop: char -> bool)
    requires forall i :: 0 <= i < |post| ==> drop(post[i])
    requires rest == [] || !drop(rest[|rest| - 1])
    ensures TrimEnd(rest + post, drop) == rest
    decreases |post|
  {
    if post != [] {
      var n := |post| - 1;
      assert (rest + post)[..|rest + post| - 1] == rest + post[..n];
      TrimEndSkips(rest, post[..n], drop);
    } else {
      assert rest + post == rest;
    }
  }

  /**
   * `strip()` of a text framed by whitespace removes exactly the frame when
   * the text itself neither starts nor ends with whitespace.
   */
  lemma StripFramed(pre: string, core: string, post: string)
    requires forall i :: 0 <= i < |pre| ==> IsSpace(pre[i])
    requires forall i :: 0 <= i < |post| ==> IsSpace(post[i])
    requires core != [] && !IsSpace(core[0]) && !IsSpace(core[|core| - 1])
    ensures Strip(pre + core + post) == core
  {
    assert pre + core + post == pre + (core + post);
    TrimStartSkips(pre, core + post, IsSpace);
    TrimEndSkips(core, post, IsSpace);
  }

  /** A string occurs inside any text that has it in the middle. */
  lemma ContainsMiddle(a: string, b: string, c: string)
    ensures Contains(a + b + c, b)
  {
    assert (a + b + c)[|a|..|a| + |b|] == b;
    ContainsIff(a + b + c, b, |a|);
  }

  /** `"".join(parts)`. */
  function Concat(parts: seq<string>): string {
    if parts == [] then "" else Concat(parts[..|parts| - 1]) + parts[|parts| - 1]
  }

  /** Concatenation distributes over appending lists of parts. */
  lemma {:induction false} ConcatAppend(a: seq<string>, b: seq<string>)
    ensures Concat(a + b) == Concat(a) + Concat(b)
    decreases |b|
  {
    if b == [] {
      assert a + b == a;
    } else {
      var n := |b| - 1;
      assert (a + b)[..|a + b| - 1] == a + b[..n];
      assert (a + b)[|a + b| - 1] == b[n];
      ConcatAppend(a, b[..n]);
      calc {
        Concat(a + b);
        Concat(a + b[..n]) + b[n];
        Concat(a) + Concat(b[..n]) + b[n];
        { AppendAssoc(Concat(a), Concat(b[..n]), b[n]); }
        Concat(a) + (Concat(b[..n]) + b[n]);
        Concat(a) + Concat(b);
      }
    }
  }

  lemma AppendAssoc(a: string, b: string, c: string)
    ensures a + (b + c) == a + b + c
  {
  }

  /** A string occurs at the end of any text it ends. */
  lemma ContainsSuffix(a: string, b: string)
    ensures Contains(a + b, b)
  {
    ContainsMiddle(a, b, "");
    assert a + b + "" == a + b;
  }

  /** Prepending text keeps every occurrence. */
  lemma ContainsPrepend(t: string, s: string, pat: string)
    requires Contains(s, pat)
    ensures Contains(t + s, pat)
  {
    var i := IndexOf(s, pat).value;
    assert (t + s)[|t| + i..|t| + i + |pat|] == s[i..i + |pat|];
    ContainsIff(t + s, pat, |t| + i);
  }

  /** `sep.join(parts)` contains every part. */
  lemma {:induction false} JoinContains(parts: seq<string>, sep: string, i: nat)
    requires i < |parts|
    ensures Contains(Join(parts, sep), parts[i])
    decreases |parts|
  {
    hide IndexOf;
    if |parts| == 1 {
      ContainsMiddle("", parts[0], "");
      assert "" + parts[0] + "" == parts[0] == Join(parts, sep);
    } else {
      var rest := Join(parts[1..], sep);
      assert Join(parts, sep) == parts[0] + sep + rest;
      if i == 0 {
        ContainsMiddle("", parts[0], sep + rest);
        assert "" + parts[0] + (sep + rest) == parts[0] + sep + rest;
      } else {
        JoinContains(parts[1..], sep, i - 1);
        assert parts[1..][i - 1] == parts[i];
        ContainsPrepend(parts[0] + sep, rest, parts[i]);
      }
    }
  }

  /** Appending text keeps every occurrence. */
  lemma ContainsExtend(s: string, pat: string, t: string)
    requires Contains(s, pat)
    ensures Contains(s + t, pat)
  {
    var i := IndexOf(s, pat).value;
    assert (s + t)[i..i + |pat|] == s[i..i + |pat|];
    ContainsIff(s + t, pat, i);
  }
}
