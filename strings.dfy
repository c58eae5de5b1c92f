/**
 * The pieces of Rust's string library the service relies on:
 * `[String]::join`, `char::is_whitespace` and `str::trim`.
 */
module Strings {

  /** `parts.join(sep)`: the parts in order with `sep` between neighbours. */
  function Join(parts: seq<string>, sep: string): string
  {
    if |parts| == 0 then ""
    else if |parts| == 1 then parts[0]
    else parts[0] + sep + Join(parts[1..], sep)
  }

  /** Plain concatenation of the parts, built from the right. */
  function Concat(parts: seq<string>): string
  {
    if |parts| == 0 then "" else Concat(parts[..|parts| - 1]) + parts[|parts| - 1]
  }

  lemma {:induction false} ConcatCons(p: string, parts: seq<string>)
    ensures Concat([p] + parts) == p + Concat(parts)
  {
    if |parts| == 0 {
      assert ([p] + parts)[..0] == [];
    } else {
      var n := |parts|;
      assert ([p] + parts)[..n] == [p] + parts[..n - 1];
      ConcatCons(p, parts[..n - 1]);
    }
  }

  /** Concatenating two runs of parts concatenates their concatenations. */
  lemma {:induction false} ConcatAppend(a: seq<string>, b: seq<string>)
    ensures Concat(a + b) == Concat(a) + Concat(b)
  {
    if |b| == 0 {
      assert a + b == a;
    } else {
      var n := |b| - 1;
      assert (a + b)[..|a + b| - 1] == a + b[..n];
      assert (a + b)[|a + b| - 1] == b[n];
      ConcatAppend(a, b[..n]);
      calc {
        Concat(a + b);
        Concat(a + b[..n]) + b[n];
        Concat(a) + Concat(b[..n]) + b[n];
        Concat(a) + (Concat(b[..n]) + b[n]);
      }
    }
  }

  /** The concatenation is empty exactly when every part is. */
  lemma {:induction false} ConcatEmptyIff(parts: seq<string>)
    ensures Concat(parts) == "" <==> forall k :: 0 <= k < |parts| ==> parts[k] == ""
  {
    if |parts| > 0 {
      var n := |parts| - 1;
      var init := parts[..n];
      ConcatEmptyIff(init);
      assert |Concat(init) + parts[n]| == |Concat(init)| + |parts[n]|;
      assert forall k :: 0 <= k < n ==> init[k] == parts[k];
    }
  }

  /** Joining with the empty separator is concatenation. */
  lemma {:induction false} JoinEmptySeparator(parts: seq<string>)
    ensures Join(parts, "") == Concat(parts)
  {
    if |parts| == 0 {
    } else if |parts| == 1 {
      assert parts == [parts[0]] + [];
      ConcatCons(parts[0], []);
    } else {
      JoinEmptySeparator(parts[1..]);
      assert parts == [parts[0]] + parts[1..];
      ConcatCons(parts[0], parts[1..]);
    }
  }

  /** Appending a part adds the separator and the part, and nothing else. */
  lemma {:induction false} JoinSnoc(parts: seq<string>, p: string, sep: string)
    requires |parts| > 0
    ensures Join(parts + [p], sep) == Join(parts, sep) + sep + p
  {
    if |parts| == 1 {
      assert (parts + [p])[1..] == [p];
    } else {
      assert (parts + [p])[1..] == parts[1..] + [p];
      JoinSnoc(parts[1..], p, sep);
    }
  }

  /** The length of a join: every part, plus one separator per gap. */
  lemma {:induction false} JoinLength(parts: seq<string>, sep: string)
    requires |parts| > 0
    ensures |Join(parts, sep)| == |Concat(parts)| + (|parts| - 1) * |sep|
  {
    if |parts| > 1 {
      var rest := parts[1..];
      JoinLength(rest, sep);
      assert parts == [parts[0]] + rest;
      ConcatCons(parts[0], rest);
      assert |Join(parts, sep)| == |parts[0]| + |sep| + |Join(rest, sep)|;
      assert (|parts| - 1) * |sep| == (|rest| - 1) * |sep| + |sep|;
    }
  }

  /** Rust's `char::is_whitespace`: the Unicode White_Space property. */
  predicate IsWhitespace(c: char)
  {
    var n := c as int;
    (0x09 <= n <= 0x0D) || n == 0x20 || n == 0x85 || n == 0xA0 || n == 0x1680
    || (0x2000 <= n <= 0x200A) || n == 0x2028 || n == 0x2029 || n == 0x202F
    || n == 0x205F || n == 0x3000
  }

  /** Every character of `s` is whitespace (vacuously so for ""). */
  predicate IsBlank(s: string)
  {
    forall i :: 0 <= i < |s| ==> IsWhitespace(s[i])
  }

  lemma IsBlankConcat(a: string, b: string)
    ensures IsBlank(a + b) <==> IsBlank(a) && IsBlank(b)
  {
    if IsBlank(a + b) {
      assert forall i :: 0 <= i < |a| ==> a[i] == (a + b)[i];
      assert forall i :: 0 <= i < |b| ==> b[i] == (a + b)[|a| + i];
    }
  }

  /** With a whitespace separator, a join is blank exactly when every part is. */
  lemma {:induction false} JoinBlank(parts: seq<string>, sep: string)
    requires IsBlank(sep)
    ensures IsBlank(Join(parts, sep)) <==> forall k :: 0 <= k < |parts| ==> IsBlank(parts[k])
  {
    if |parts| > 1 {
      JoinBlank(parts[1..], sep);
      IsBlankConcat(parts[0] + sep, Join(parts[1..], sep));
      IsBlankConcat(parts[0], sep);
      if forall k :: 0 <= k < |parts[1..]| ==> IsBlank(parts[1..][k]) {
        assert forall k :: 1 <= k < |parts| ==> IsBlank(parts[k]) by {
          forall k | 1 <= k < |parts| ensures IsBlank(parts[k]) {
            assert parts[k] == parts[1..][k - 1];
          }
        }
      }
    }
  }

  /**
   * `t` is what trimming `s` must give: a slice of `s` with only whitespace
   * cut off at either end, which itself neither starts nor ends with
   * whitespace.
   */
  ghost predicate IsTrimOf(t: string, s: string)
  {
    exists i, j :: 0 <= i <= j <= |s| && t == s[i..j] && IsBlank(s[..i]) && IsBlank(s[j..])
                   && (t != [] ==> !IsWhitespace(t[0]) && !IsWhitespace(t[|t| - 1]))
  }

  function TrimStart(s: string): (r: string)
    ensures |r| <= |s| && r == s[|s| - |r|..] && IsBlank(s[..|s| - |r|])
    ensures r != [] ==> !IsWhitespace(r[0])
  {
    if |s| > 0 && IsWhitespace(s[0]) then TrimStart(s[1..]) else s
  }

  function TrimEnd(s: string): (r: string)
    ensures |r| <= |s| && r == s[..|r|] && IsBlank(s[|r|..])
    ensures r != [] ==> !IsWhitespace(r[|r| - 1])
  {
    if |s| > 0 && IsWhitespace(s[|s| - 1]) then TrimEnd(s[..|s| - 1]) else s
  }

  /** Rust's `str::trim`. */
  function Trim(s: string): (r: string)
    ensures IsTrimOf(r, s)
  {
    var a := TrimStart(s);
    var r := TrimEnd(a);
    var i := |s| - |a|;
    assert r == s[i..i + |r|];
    assert s[i + |r|..] == a[|r|..];
    r
  }

  /** Whatever satisfies `IsTrimOf` is empty exactly when the string is blank. */
  lemma TrimOfEmptyIffBlank(t: string, s: string)
    requires IsTrimOf(t, s)
    ensures t == [] <==> IsBlank(s)
  {
    var i, j :| 0 <= i <= j <= |s| && t == s[i..j] && IsBlank(s[..i]) && IsBlank(s[j..])
                && (t != [] ==> !IsWhitespace(t[0]) && !IsWhitespace(t[|t| - 1]));
    if t == [] {
      forall k | 0 <= k < |s| ensures IsWhitespace(s[k]) {
        if k < i { assert s[..i][k] == s[k]; } else { assert s[j..][k - j] == s[k]; }
      }
    } else {
      assert s[i] == t[0];
    }
  }

  /** Where a non-empty trim sits: whitespace before it and after it, none at its ends. */
  lemma TrimOfBounds(t: string, s: string, i: int, j: int)
    requires 0 <= i <= j <= |s| && t == s[i..j] && IsBlank(s[..i]) && IsBlank(s[j..])
    requires t != [] && !IsWhitespace(t[0]) && !IsWhitespace(t[|t| - 1])
    ensures i < j && !IsWhitespace(s[i]) && !IsWhitespace(s[j - 1])
    ensures forall k :: 0 <= k < i ==> IsWhitespace(s[k])
    ensures forall k :: j <= k < |s| ==> IsWhitespace(s[k])
  {
    assert forall k :: 0 <= k < i ==> s[..i][k] == s[k];
    assert forall k :: j <= k < |s| ==> s[j..][k - j] == s[k];
  }

  /** The trim of a string is unique: `IsTrimOf` determines it. */
  lemma TrimOfUnique(t1: string, t2: string, s: string)
    requires IsTrimOf(t1, s) && IsTrimOf(t2, s)
    ensures t1 == t2
  {
    TrimOfEmptyIffBlank(t1, s);
    TrimOfEmptyIffBlank(t2, s);
    if t1 != [] {
      var i1, j1 :| 0 <= i1 <= j1 <= |s| && t1 == s[i1..j1] && IsBlank(s[..i1]) && IsBlank(s[j1..])
                    && !IsWhitespace(t1[0]) && !IsWhitespace(t1[|t1| - 1]);
      var i2, j2 :| 0 <= i2 <= j2 <= |s| && t2 == s[i2..j2] && IsBlank(s[..i2]) && IsBlank(s[j2..])
                    && !IsWhitespace(t2[0]) && !IsWhitespace(t2[|t2| - 1]);
      TrimOfBounds(t1, s, i1, j1);
      TrimOfBounds(t2, s, i2, j2);
      assert i1 == i2 && j1 == j2;
    }
  }

  /** Trimming gives "" exactly when the string is all whitespace. */
  lemma TrimEmptyIffBlank(s: string)
    ensures Trim(s) == "" <==> IsBlank(s)
  {
    TrimOfEmptyIffBlank(Trim(s), s);
  }

  /** Trimming twice is trimming once. */
  lemma TrimIdempotent(s: string)
    ensures Trim(Trim(s)) == Trim(s)
  {
    var t := Trim(s);
    assert t[0..|t|] == t;
    assert t[..0] == [] && t[|t|..] == [];
    assert IsTrimOf(t, t);
    TrimOfUnique(Trim(t), t, t);
  }
}
