/**
 * The few Python string and list operations the weather core relies on:
 * `str.split(sep)`, `sep.join(parts)`, `list.insert(i, x)`, `str.upper()`,
 * `str.strip()` and `str.isalpha()`, over ASCII characters.
 */
module Strings {

  /** `s.split(sep)`: the pieces between occurrences of `sep`, never empty. */
  function Split(s: string, sep: char): (parts: seq<string>)
    ensures |parts| >= 1
    ensures forall k | 0 <= k < |parts| :: sep !in parts[k]
  {
    if s == [] then [""]
    else
      var rest := Split(s[1..], sep);
      if s[0] == sep then [""] + rest
      else [[s[0]] + rest[0]] + rest[1..]
  }

  /** `sep.join(parts)`: the first piece comes first, followed by the separator when more pieces follow. */
  function Join(parts: seq<string>, sep: char): (s: string)
    ensures |parts| >= 1 ==> parts[0] <= s
    ensures |parts| >= 2 ==> |s| > |parts[0]| && s[|parts[0]|] == sep
    ensures |parts| == 0 ==> s == ""
  {
    if |parts| == 0 then ""
    else if |parts| == 1 then parts[0]
    else parts[0] + [sep] + Join(parts[1..], sep)
  }

  /** Joining the pieces of a split gives the original string back. */
  lemma {:induction false} JoinSplit(s: string, sep: char)
    ensures Join(Split(s, sep), sep) == s
  {
    if s != [] {
      var rest := Split(s[1..], sep);
      JoinSplit(s[1..], sep);
      if s[0] == sep {
        assert Split(s, sep) == [""] + rest;
        assert ([""] + rest)[1..] == rest;
      } else {
        var parts := [[s[0]] + rest[0]] + rest[1..];
        assert Split(s, sep) == parts;
        if |rest| > 1 {
          assert parts[1..] == rest[1..];
          assert Join(rest, sep) == rest[0] + [sep] + Join(rest[1..], sep);
        }
      }
    }
  }

  /** A string without the separator splits into itself alone. */
  lemma {:induction false} SplitWithoutSeparator(x: string, sep: char)
    requires sep !in x
    ensures Split(x, sep) == [x]
  {
    if x != [] {
      SplitWithoutSeparator(x[1..], sep);
      assert x[0] != sep;
      assert [x[0]] + x[1..] == x;
    }
  }

  /** Splitting `x + sep + y` peels off `x` when `x` holds no separator. */
  lemma {:induction false} SplitAfterPiece(x: string, sep: char, y: string)
    requires sep !in x
    ensures Split(x + [sep] + y, sep) == [x] + Split(y, sep)
  {
    var s := x + [sep] + y;
    if x == [] {
      assert s[1..] == y;
    } else {
      assert s[1..] == x[1..] + [sep] + y;
      SplitAfterPiece(x[1..], sep, y);
      assert [x[0]] + x[1..] == x;
    }
  }

  /** Splitting a join of separator-free pieces gives the pieces back. */
  lemma {:induction false} SplitJoin(parts: seq<string>, sep: char)
    requires |parts| >= 1
    requires forall k | 0 <= k < |parts| :: sep !in parts[k]
    ensures Split(Join(parts, sep), sep) == parts
  {
    if |parts| == 1 {
      SplitWithoutSeparator(parts[0], sep);
    } else {
      SplitJoin(parts[1..], sep);
      SplitAfterPiece(parts[0], sep, Join(parts[1..], sep));
      assert [parts[0]] + parts[1..] == parts;
    }
  }

  /** `list.insert(i, x)`: `x` lands at index `i`, or at the end when `i` is past it. */
  function Insert<T>(s: seq<T>, i: nat, x: T): (r: seq<T>)
    ensures |r| == |s| + 1
    ensures i <= |s| ==> r[i] == x && r[..i] == s[..i] && r[i + 1..] == s[i..]
    ensures i > |s| ==> r == s + [x]
  {
    if i <= |s| then s[..i] + [x] + s[i..] else s + [x]
  }

  /** Inserting a separator-free piece among separator-free pieces keeps every piece separator-free. */
  lemma InsertKeepsSeparatorFree(parts: seq<string>, i: nat, x: string, sep: char)
    requires forall k | 0 <= k < |parts| :: sep !in parts[k]
    requires sep !in x
    ensures forall k | 0 <= k < |Insert(parts, i, x)| :: sep !in Insert(parts, i, x)[k]
  {
    var r := Insert(parts, i, x);
    forall k | 0 <= k < |r|
      ensures sep !in r[k]
    {
      if i <= |parts| {
        if k < i {
          assert r[k] == r[..i][k] == parts[..i][k];
        } else if k > i {
          assert r[k] == r[i + 1..][k - i - 1] == parts[i..][k - i - 1];
        }
      } else if k < |parts| {
        assert r[k] == parts[k];
      }
    }
  }

  predicate IsLower(c: char) { 'a' <= c <= 'z' }

  predicate IsUpper(c: char) { 'A' <= c <= 'Z' }

  predicate IsLetter(c: char) { IsLower(c) || IsUpper(c) }

  /** The characters `str.isspace()` accepts, restricted to ASCII. */
  predicate IsSpace(c: char)
  {
    c == ' ' || 9 <= c as int <= 13 || 28 <= c as int <= 31
  }

  function UpperChar(c: char): (u: char)
  {
    if IsLower(c) then (c as int - 32) as char else c
  }

  /** `s.upper()`: each lower-case letter becomes its own capital and every other character is kept. */
  function Upper(s: string): (r: string)
    ensures |r| == |s|
    ensures forall k | 0 <= k < |s| && IsLower(s[k]) :: IsUpper(r[k]) && r[k] as int + 32 == s[k] as int
    ensures forall k | 0 <= k < |s| :: !IsLower(r[k]) && IsLetter(r[k]) == IsLetter(s[k])
    ensures forall k | 0 <= k < |s| && !IsLower(s[k]) :: r[k] == s[k]
  {
    seq(|s|, k requires 0 <= k < |s| => UpperChar(s[k]))
  }

  /** `s.isalpha()`: non-empty and made of letters only, so free of spaces and punctuation. */
  predicate IsAlpha(s: string): (b: bool)
    ensures b ==> s != [] && ' ' !in s && '-' !in s && '\'' !in s
  {
    |s| > 0 && forall k | 0 <= k < |s| :: IsLetter(s[k])
  }

  /** `s.lstrip()`: the longest suffix of `s` that does not start with whitespace. */
  function TrimLeft(s: string): (r: string)
    ensures |r| <= |s| && r == s[|s| - |r|..]
    ensures r == [] || !IsSpace(r[0])
    ensures forall k | 0 <= k < |s| - |r| :: IsSpace(s[k])
  {
    if s != [] && IsSpace(s[0]) then TrimLeft(s[1..]) else s
  }

  /** `s.rstrip()`: the longest prefix of `s` that does not end with whitespace. */
  function TrimRight(s: string): (r: string)
    ensures |r| <= |s| && r == s[..|r|]
    ensures r == [] || !IsSpace(r[|r| - 1])
    ensures forall k | |r| <= k < |s| :: IsSpace(s[k])
  {
    if s != [] && IsSpace(s[|s| - 1]) then TrimRight(s[..|s| - 1]) else s
  }

  /** `s.strip()`: a string no longer than `s` with no whitespace at either end. */
  function Strip(s: string): (r: string)
    ensures |r| <= |s|
    ensures r == [] || (!IsSpace(r[0]) && !IsSpace(r[|r| - 1]))
  {
    TrimRight(TrimLeft(s))
  }

  /** A prefix `r` of the suffix `l == s[i..]` is the slice `s[i..i + |r|]`, and what `l` drops after `r` is `s` past it. */
  lemma SliceFacts(s: string, l: string, r: string, i: nat)
    requires i <= |s| && l == s[i..]
    requires |r| <= |l| && r == l[..|r|]
    ensures r == s[i..i + |r|]
    ensures forall k | i + |r| <= k < |s| :: s[k] == l[k - i]
  {
  }

  /** Strip keeps a contiguous run of `s` and drops only whitespace around it. */
  lemma StripIsTrimmedSlice(s: string)
    ensures exists i, j {:trigger s[i..j]} ::
              && 0 <= i <= j <= |s| && Strip(s) == s[i..j]
              && (forall k | 0 <= k < i :: IsSpace(s[k]))
              && (forall k | j <= k < |s| :: IsSpace(s[k]))
  {
    var l := TrimLeft(s);
    var r := TrimRight(l);
    assert Strip(s) == r;
    var i := |s| - |l|;
    var j := i + |r|;
    assert Strip(s) == s[i..j] by {
      SliceFacts(s, l, r, i);
    }
    assert forall k | j <= k < |s| :: IsSpace(s[k]) by {
      SliceFacts(s, l, r, i);
    }
  }
}
