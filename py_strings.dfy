/** The Python string builtins that the storage helpers rely on:
    `str.find`/`str.rfind` on one character, `str.split(sep, 1)`,
    `str.split(sep)`, `str.replace(old, '')`, `str.rstrip(c)` and the POSIX
    `os.path.basename`/`os.path.dirname`. Each is written as CPython
    computes it and characterised by its contract or by the lemmas after
    it; `dirname` only for `dir/file` and `/file` paths
    (`DirnameOfNestedPath`, `DirnameOfRootFile`). */
module PyStrings {
  import opened Outcomes

  /** `pat` occurs in `s` starting at index `j`. */
  predicate OccursAt(s: string, pat: string, j: nat) {
    j + |pat| <= |s| && s[j..j + |pat|] == pat
  }

  /** `pat` is a substring of `s` (Python's `pat in s`). */
  ghost predicate Occurs(s: string, pat: string) {
    exists j: nat :: OccursAt(s, pat, j)
  }

  /** Index of the first `c` in `s`; `str.find` giving -1 is `None` here. */
  function Find(s: string, c: char): (r: Option<nat>)
    ensures r.None? <==> c !in s
    ensures r.Some? ==> r.value < |s| && s[r.value] == c && c !in s[..r.value]
  {
    if s == [] then None
    else if s[0] == c then Some(0)
    else
      match Find(s[1..], c)
      case None => None
      case Some(i) =>
        assert s[1..][..i] == s[1..i + 1];
        Some(i + 1)
  }

  /** Index of the last `c` in `s` (`str.rfind`). */
  function RFind(s: string, c: char): (r: Option<nat>)
    ensures r.None? <==> c !in s
    ensures r.Some? ==> r.value < |s| && s[r.value] == c && c !in s[r.value + 1..]
  {
    if s == [] then None
    else if s[|s| - 1] == c then Some(|s| - 1)
    else
      var r := RFind(s[..|s| - 1], c);
      assert r.Some? ==> s[r.value + 1..] == s[..|s| - 1][r.value + 1..] + [s[|s| - 1]];
      r
  }

  /** `s.split(sep, 1)`: the text before the first `sep` and the text after
      it, or `[s]` alone when `sep` does not occur. */
  function SplitOnce(s: string, sep: char): (parts: seq<string>)
    ensures 1 <= |parts| <= 2
    ensures sep !in parts[0]
    ensures |parts| == 1 <==> sep !in s
    ensures |parts| == 1 ==> parts[0] == s
    ensures |parts| == 2 ==> parts[0] + [sep] + parts[1] == s
  {
    match Find(s, sep)
    case None => [s]
    case Some(i) =>
      assert s[..i] + [sep] + s[i + 1..] == s;
      [s[..i], s[i + 1..]]
  }

  /** The parts joined back together with `sep` between them (`sep.join`). */
  function Join(parts: seq<string>, sep: char): string
    requires |parts| >= 1
  {
    if |parts| == 1 then parts[0] else parts[0] + [sep] + Join(parts[1..], sep)
  }

  /** `s.split(sep)`: every maximal run of text between separators, so one
      part more than there are separators; no part contains `sep` and joining
      them back gives `s`. */
  function Split(s: string, sep: char): (parts: seq<string>)
    ensures |parts| == multiset(s)[sep] + 1
    ensures forall i :: 0 <= i < |parts| ==> sep !in parts[i]
    ensures Join(parts, sep) == s
    decreases |s|
  {
    match Find(s, sep)
    case None =>
      assert multiset(s)[sep] == 0;
      [s]
    case Some(i) =>
      var rest := Split(s[i + 1..], sep);
      assert s == s[..i] + [sep] + s[i + 1..];
      assert multiset(s) == multiset(s[..i]) + multiset{sep} + multiset(s[i + 1..]);
      assert ([s[..i]] + rest)[1..] == rest;
      [s[..i]] + rest
  }

  /** Splitting text whose first separator follows `head` yields `head`
      and then the split of what comes after that separator. */
  lemma {:induction false} SplitAfterHead(head: string, sep: char, tail: string)
    requires sep !in head
    ensures Split(head + [sep] + tail, sep) == [head] + Split(tail, sep)
  {
    var s := head + [sep] + tail;
    assert s[..|head|] == head && s[|head|] == sep && s[|head| + 1..] == tail;
    assert Find(s, sep) == Some(|head|) by {
      var i := Find(s, sep).value;
      assert s[..|head| + 1][|head|] == sep;
    }
  }

  /** Joining parts that hold no separator and splitting the result gives
      the parts back. */
  lemma {:induction false} SplitJoin(parts: seq<string>, sep: char)
    requires |parts| >= 1
    requires forall i :: 0 <= i < |parts| ==> sep !in parts[i]
    ensures Split(Join(parts, sep), sep) == parts
    decreases |parts|
  {
    if |parts| > 1 {
      SplitJoin(parts[1..], sep);
      SplitAfterHead(parts[0], sep, Join(parts[1..], sep));
      assert [parts[0]] + parts[1..] == parts;
    }
  }

  /** A character other than the separator occurs in the joined text only
      if it occurs in one of the parts. */
  lemma {:induction false} JoinLacks(parts: seq<string>, sep: char, x: char)
    requires |parts| >= 1 && x != sep
    requires forall i :: 0 <= i < |parts| ==> x !in parts[i]
    ensures x !in Join(parts, sep)
    decreases |parts|
  {
    if |parts| > 1 {
      JoinLacks(parts[1..], sep, x);
    }
  }

  /** `s.replace(pat, '')`: scanning from the left, every non-overlapping
      occurrence of `pat` is removed, not only a leading one. */
  function RemoveAll(s: string, pat: string): (r: string)
    requires pat != []
    ensures |r| <= |s|
    decreases |s|
  {
    if |s| < |pat| then s
    else if s[..|pat|] == pat then RemoveAll(s[|pat|..], pat)
    else [s[0]] + RemoveAll(s[1..], pat)
  }

  /** Removing `pat` from text that does not contain it changes nothing. */
  lemma {:induction false} RemoveAllAbsent(s: string, pat: string)
    requires pat != [] && !Occurs(s, pat)
    ensures RemoveAll(s, pat) == s
    decreases |s|
  {
    if |s| >= |pat| {
      assert !OccursAt(s, pat, 0);
      forall j: nat | OccursAt(s[1..], pat, j)
        ensures false
      {
        assert s[1..][j..j + |pat|] == s[j + 1..j + 1 + |pat|];
        assert OccursAt(s, pat, j + 1);
      }
      RemoveAllAbsent(s[1..], pat);
      assert [s[0]] + s[1..] == s;
    }
  }

  /** A leading occurrence of `pat` is removed and the scan continues after it. */
  lemma RemoveAllLeading(pat: string, s: string)
    requires pat != []
    ensures RemoveAll(pat + s, pat) == RemoveAll(s, pat)
  {
    assert (pat + s)[..|pat|] == pat && (pat + s)[|pat|..] == s;
  }

  /** An occurrence in the text after its first character is an occurrence
      one place later in the text itself. */
  lemma OccursAtShift(s: string, pat: string, j: nat)
    requires s != []
    ensures OccursAt(s[1..], pat, j) ==> OccursAt(s, pat, j + 1)
  {
    if j + |pat| <= |s[1..]| {
      assert s[1..][j..j + |pat|] == s[j + 1..j + 1 + |pat|];
    }
  }

  /** Where `pat` does not start the text, the scan keeps the first
      character and goes on from the second. */
  lemma RemoveAllStep(s: string, pat: string)
    requires pat != [] && |s| >= |pat| && !OccursAt(s, pat, 0)
    ensures RemoveAll(s, pat) == [s[0]] + RemoveAll(s[1..], pat)
  {
    assert s[0..|pat|] == s[..|pat|];
  }

  /** Concatenation is associative. Stated apart from `RemoveAllFirst`
      so that the solver proves it without that lemma's context. */
  lemma ConcatAssociative(x: string, y: string, z: string)
    ensures x + (y + z) == (x + y) + z
  {
  }

  /** The scan skips text without an occurrence and removes the first
      occurrence wherever it starts, then goes on after it: `replace`
      removes every occurrence, not only a leading one. */
  lemma {:induction false} RemoveAllFirst(a: string, pat: string, b: string)
    requires pat != []
    requires forall j: nat :: j < |a| ==> !OccursAt(a + pat + b, pat, j)
    ensures RemoveAll(a + pat + b, pat) == a + RemoveAll(b, pat)
    decreases |a|
  {
    var s := a + pat + b;
    if a == [] {
      assert s == pat + b;
      RemoveAllLeading(pat, b);
    } else {
      var rest := a[1..] + pat + b;
      assert s[1..] == rest;
      forall j: nat | j < |a[1..]|
        ensures !OccursAt(rest, pat, j)
      {
        OccursAtShift(s, pat, j);
      }
      RemoveAllFirst(a[1..], pat, b);
      assert !OccursAt(s, pat, 0);
      RemoveAllStep(s, pat);
      var r := RemoveAll(b, pat);
      assert s[0] == a[0] && [a[0]] + a[1..] == a;
      ConcatAssociative([a[0]], a[1..], r);
    }
  }

  /** Removing `pat` never adds nor drops a character that `pat` does not
      contain. */
  lemma {:induction false} RemoveAllKeepsOthers(s: string, pat: string, c: char)
    requires pat != [] && c !in pat
    ensures multiset(RemoveAll(s, pat))[c] == multiset(s)[c]
    decreases |s|
  {
    if |s| < |pat| {
    } else if s[..|pat|] == pat {
      RemoveAllKeepsOthers(s[|pat|..], pat, c);
      KeepsOthersPastMatch(s, pat, c);
    } else {
      RemoveAllKeepsOthers(s[1..], pat, c);
      KeepsOthersPastChar(s, pat, c);
    }
  }

  /** The step of `RemoveAllKeepsOthers` where the text starts with `pat`. */
  lemma KeepsOthersPastMatch(s: string, pat: string, c: char)
    requires pat != [] && c !in pat && |s| >= |pat| && s[..|pat|] == pat
    requires multiset(RemoveAll(s[|pat|..], pat))[c] == multiset(s[|pat|..])[c]
    ensures multiset(RemoveAll(s, pat))[c] == multiset(s)[c]
  {
    var rest := s[|pat|..];
    assert s == pat + rest;
    CountOfConcat(pat, rest, c);
  }

  /** The step of `RemoveAllKeepsOthers` where the text does not start
      with `pat`. */
  lemma KeepsOthersPastChar(s: string, pat: string, c: char)
    requires pat != [] && |s| >= |pat| && s[..|pat|] != pat
    requires multiset(RemoveAll(s[1..], pat))[c] == multiset(s[1..])[c]
    ensures multiset(RemoveAll(s, pat))[c] == multiset(s)[c]
  {
    var rest := s[1..];
    assert !OccursAt(s, pat, 0) by {
      assert s[0..|pat|] == s[..|pat|];
    }
    RemoveAllStep(s, pat);
    CountOfConcat([s[0]], RemoveAll(rest, pat), c);
    CountOfConcat([s[0]], rest, c);
    assert [s[0]] + rest == s;
  }

  /** Occurrences of a character in a concatenation add up. */
  lemma CountOfConcat(x: string, y: string, c: char)
    ensures multiset(x + y)[c] == multiset(x)[c] + multiset(y)[c]
  {
    assert multiset(x + y) == multiset(x) + multiset(y);
  }

  /** Text made of `c` only (Python's `s == c * len(s)`). */
  predicate OnlyOf(s: string, c: char) {
    forall k :: 0 <= k < |s| ==> s[k] == c
  }

  /** `r` is `s` with every trailing `c` removed: a prefix of `s` that does
      not end in `c`, followed in `s` only by `c`s. */
  predicate TrailingStripped(s: string, c: char, r: string) {
    r <= s && (r == [] || r[|r| - 1] != c) && forall k :: |r| <= k < |s| ==> s[k] == c
  }

  /** `s.rstrip(c)`. */
  function RStrip(s: string, c: char): (r: string)
    ensures TrailingStripped(s, c, r)
  {
    if s != [] && s[|s| - 1] == c then RStrip(s[..|s| - 1], c) else s
  }

  /** Stripping is fully determined by its characterisation: any text that
      meets it is the result of `RStrip`. */
  lemma TrailingStrippedUnique(s: string, c: char, r1: string, r2: string)
    requires TrailingStripped(s, c, r1) && TrailingStripped(s, c, r2)
    ensures r1 == r2
  {
  }

  /** `os.path.basename(p)`: the text after the last `/`, all of `p` when
      there is no `/`. */
  function Basename(p: string): (r: string)
    ensures '/' !in r
    ensures |r| <= |p| && p[|p| - |r|..] == r
    ensures |r| < |p| ==> p[|p| - |r| - 1] == '/'
  {
    match RFind(p, '/')
    case None => p
    case Some(i) => p[i + 1..]
  }

  /** `os.path.dirname(p)` on POSIX: the text up to and including the last
      `/`, with trailing slashes removed unless it consists of slashes only. */
  function Dirname(p: string): (r: string)
    ensures r <= p
    ensures '/' !in p ==> r == []
  {
    var head := match RFind(p, '/') case None => [] case Some(i) => p[..i + 1];
    if head != [] && !OnlyOf(head, '/') then RStrip(head, '/') else head
  }

  /** The directory part of `dir/file` is `dir` when `file` holds no `/` and
      `dir` does not itself end in `/`. */
  lemma DirnameOfNestedPath(dir: string, file: string)
    requires dir != [] && dir[|dir| - 1] != '/' && '/' !in file
    ensures Dirname(dir + "/" + file) == dir
  {
    var p := dir + "/" + file;
    var i := RFind(p, '/').value;
    assert p[|dir|] == '/';
    assert i == |dir| by {
      assert forall k :: |dir| < k < |p| ==> p[k] == file[k - |dir| - 1];
    }
    var head := p[..i + 1];
    assert head == dir + "/";
    assert head[|dir| - 1] != '/';
    assert RStrip(head, '/') == RStrip(dir, '/');
  }

  /** The directory part of `/file` is the root `/` itself: a head made
      of slashes only is kept as it is. */
  lemma DirnameOfRootFile(file: string)
    requires '/' !in file
    ensures Dirname("/" + file) == "/"
  {
    var p := "/" + file;
    assert p[0] == '/';
    assert forall k :: 0 < k < |p| ==> p[k] == file[k - 1];
    assert RFind(p, '/') == Some(0);
    assert p[..1] == "/";
  }
}
