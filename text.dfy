/**
 * The System.String operations the URI parser and the address splitter use,
 * on strings as sequences of characters.
 */
module Text {

  /** String.IndexOf(char): the first index holding `c`, or -1. */
  function IndexOf(s: string, c: char): (i: int)
    ensures -1 <= i < |s|
    ensures 0 <= i ==> s[i] == c
    ensures forall k :: 0 <= k < |s| && (i == -1 || k < i) ==> s[k] != c
  {
    if s == [] then -1
    else if s[0] == c then 0
    else
      var j := IndexOf(s[1..], c);
      if j == -1 then -1 else j + 1
  }

  /** String.LastIndexOf(char): the last index holding `c`, or -1. */
  function LastIndexOf(s: string, c: char): (i: int)
    ensures -1 <= i < |s|
    ensures 0 <= i ==> s[i] == c
    ensures forall k :: i < k < |s| ==> s[k] != c
  {
    if s == [] then -1
    else if s[|s| - 1] == c then |s| - 1
    else LastIndexOf(s[..|s| - 1], c)
  }

  /** The number of occurrences of `c` in `s`. */
  function Count(s: string, c: char): nat
  {
    if s == [] then 0 else (if s[0] == c then 1 else 0) + Count(s[1..], c)
  }

  /** String.Join(sep, parts). */
  function Join(parts: seq<string>, sep: char): string
  {
    if parts == [] then ""
    else if |parts| == 1 then parts[0]
    else parts[0] + [sep] + Join(parts[1..], sep)
  }

  /**
   * String.Split(sep) with empty entries kept: one piece more than there are
   * separators, no piece holds a separator, and joining the pieces gives back `s`.
   */
  function Split(s: string, sep: char): (parts: seq<string>)
    ensures |parts| == Count(s, sep) + 1
    ensures forall i :: 0 <= i < |parts| ==> sep !in parts[i]
    ensures Join(parts, sep) == s
  {
    if s == [] then [""]
    else
      var rest := Split(s[1..], sep);
      if s[0] == sep then
        [""] + rest
      else
        var parts := [[s[0]] + rest[0]] + rest[1..];
        assert parts[1..] == rest[1..];
        parts
  }

  lemma {:induction false} SplitWithoutSeparator(a: string, sep: char)
    requires sep !in a
    ensures Split(a, sep) == [a]
  {
    if a != [] {
      SplitWithoutSeparator(a[1..], sep);
      assert [a[0]] + a[1..] == a;
    }
  }

  lemma {:induction false} SplitAtFirstSeparator(a: string, b: string, sep: char)
    requires sep !in a
    ensures Split(a + [sep] + b, sep) == [a] + Split(b, sep)
  {
    var s := a + [sep] + b;
    if a == [] {
      assert s[1..] == b;
    } else {
      assert s[1..] == a[1..] + [sep] + b;
      SplitAtFirstSeparator(a[1..], b, sep);
      assert [a[0]] + a[1..] == a;
    }
  }

  /** Splitting undoes joining pieces that hold no separator. */
  lemma {:induction false} SplitJoin(parts: seq<string>, sep: char)
    requires |parts| >= 1
    requires forall i :: 0 <= i < |parts| ==> sep !in parts[i]
    ensures Split(Join(parts, sep), sep) == parts
  {
    if |parts| == 1 {
      SplitWithoutSeparator(parts[0], sep);
    } else {
      SplitJoin(parts[1..], sep);
      SplitAtFirstSeparator(parts[0], Join(parts[1..], sep), sep);
      assert [parts[0]] + parts[1..] == parts;
    }
  }

  /**
   * String.Trim(cs): drops the leading and the trailing characters that belong
   * to `cs`; a string made only of such characters becomes empty.
   */
  function Trim(s: string, cs: set<char>): (r: string)
    ensures |r| <= |s|
    ensures r != [] ==> r[0] !in cs && r[|r| - 1] !in cs
  {
    if s != [] && s[0] in cs then Trim(s[1..], cs)
    else if s != [] && s[|s| - 1] in cs then Trim(s[..|s| - 1], cs)
    else s
  }

  /** `r` is the run of `s` at index `i`, and every character around it belongs to `cs`. */
  predicate TrimmedAt(s: string, cs: set<char>, r: string, i: int)
  {
    && 0 <= i <= |s| - |r| && r == s[i..i + |r|]
    && (forall k :: 0 <= k < i ==> s[k] in cs)
    && (forall k :: i + |r| <= k < |s| ==> s[k] in cs)
  }

  /** Trimming adds no character: one absent from `s` is absent from its trim. */
  lemma {:induction false} TrimKeepsAbsent(s: string, cs: set<char>, c: char)
    requires c !in s
    ensures c !in Trim(s, cs)
  {
    if s != [] && s[0] in cs {
      assert c !in s[1..];
      TrimKeepsAbsent(s[1..], cs, c);
    } else if s != [] && s[|s| - 1] in cs {
      assert c !in s[..|s| - 1];
      TrimKeepsAbsent(s[..|s| - 1], cs, c);
    }
  }

  /** Putting back a dropped leading character of `cs` moves the run one place right. */
  lemma TrimmedAtFront(s: string, cs: set<char>, r: string, i: int)
    requires s != [] && s[0] in cs && TrimmedAt(s[1..], cs, r, i)
    ensures TrimmedAt(s, cs, r, i + 1)
  {
    assert r == s[i + 1..i + 1 + |r|];
    forall k | 0 <= k < i + 1 ensures s[k] in cs {
      if k > 0 { assert s[k] == s[1..][k - 1]; }
    }
    forall k | i + 1 + |r| <= k < |s| ensures s[k] in cs {
      assert s[k] == s[1..][k - 1];
    }
  }

  /** Putting back a dropped trailing character of `cs` keeps the run where it is. */
  lemma TrimmedAtBack(s: string, cs: set<char>, r: string, i: int)
    requires s != [] && s[|s| - 1] in cs && TrimmedAt(s[..|s| - 1], cs, r, i)
    ensures TrimmedAt(s, cs, r, i)
  {
    assert r == s[i..i + |r|];
    forall k | 0 <= k < i ensures s[k] in cs {
      assert s[k] == s[..|s| - 1][k];
    }
    forall k | i + |r| <= k < |s| ensures s[k] in cs {
      if k < |s| - 1 { assert s[k] == s[..|s| - 1][k]; }
    }
  }

  /**
   * What Trim keeps is one contiguous run of `s`, and every character before or
   * after that run belongs to `cs`.
   */
  lemma {:induction false} TrimSlice(s: string, cs: set<char>)
    ensures exists i :: TrimmedAt(s, cs, Trim(s, cs), i)
  {
    var r := Trim(s, cs);
    if s != [] && s[0] in cs {
      TrimSlice(s[1..], cs);
      var i :| TrimmedAt(s[1..], cs, r, i);
      TrimmedAtFront(s, cs, r, i);
    } else if s != [] && s[|s| - 1] in cs {
      TrimSlice(s[..|s| - 1], cs);
      var i :| TrimmedAt(s[..|s| - 1], cs, r, i);
      TrimmedAtBack(s, cs, r, i);
    } else {
      assert TrimmedAt(s, cs, r, 0);
    }
  }

  /** A string that neither starts nor ends with a character of `cs` is its own trim. */
  lemma TrimmedIsFixed(s: string, cs: set<char>)
    requires s != [] ==> s[0] !in cs && s[|s| - 1] !in cs
    ensures Trim(s, cs) == s
  {
  }

  /** Trimming twice is trimming once. */
  lemma TrimIdempotent(s: string, cs: set<char>)
    ensures Trim(Trim(s, cs), cs) == Trim(s, cs)
  {
    TrimmedIsFixed(Trim(s, cs), cs);
  }

  /**
   * Trimming a run that neither starts nor ends with a character of `cs` from
   * between two runs made only of such characters gives the run back.
   */
  lemma {:induction false} TrimAround(p: string, m: string, q: string, cs: set<char>)
    requires forall k :: 0 <= k < |p| ==> p[k] in cs
    requires forall k :: 0 <= k < |q| ==> q[k] in cs
    requires m != [] && m[0] !in cs && m[|m| - 1] !in cs
    ensures Trim(p + m + q, cs) == m
    decreases |p| + |q|
  {
    var s := p + m + q;
    if p != [] {
      assert s[0] == p[0] && s[1..] == p[1..] + m + q;
      TrimAround(p[1..], m, q, cs);
    } else if q != [] {
      assert s[0] == m[0] && s[|s| - 1] == q[|q| - 1];
      assert s[..|s| - 1] == [] + m + q[..|q| - 1];
      TrimAround([], m, q[..|q| - 1], cs);
    } else {
      assert s == m;
      TrimmedIsFixed(m, cs);
    }
  }

  /** `s` is its trim with runs of characters of `cs` on either side. */
  lemma TrimSplit(s: string, cs: set<char>) returns (p: string, q: string)
    ensures forall k :: 0 <= k < |p| ==> p[k] in cs
    ensures forall k :: 0 <= k < |q| ==> q[k] in cs
    ensures s == p + Trim(s, cs) + q
  {
    var r := Trim(s, cs);
    TrimSlice(s, cs);
    var i :| TrimmedAt(s, cs, r, i);
    p, q := s[..i], s[i + |r|..];
    assert s == p + r + q;
  }
}
