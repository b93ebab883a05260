/** Small shared datatypes. */
module Base {
  /** Python's `None` or a present value. */
  datatype Option<+T> = None | Some(value: T)
}

/**
 * The pieces of Python's `str` behaviour that the pipeline relies on:
 * the whitespace test, `strip`/`lstrip`/`rstrip`, and `split` on one
 * separator character. Strings are sequences of Unicode scalar
 * values (code points other than surrogates).
 */
module PyText {

  /**
   * Python's `str.isspace` for one code point. Both `str.strip()` with no
   * argument and the regular-expression class `\s` on `str` patterns use
   * exactly this set.
   */
  predicate IsSpace(c: char) {
    ('\t' <= c <= '\r') || ('\U{1C}' <= c <= '\U{1F}') || c == ' '
    || c == '\U{85}' || c == '\U{A0}' || c == '\U{1680}'
    || ('\U{2000}' <= c <= '\U{200A}') || c == '\U{2028}' || c == '\U{2029}'
    || c == '\U{202F}' || c == '\U{205F}' || c == '\U{3000}'
  }

  /** The regular-expression class `\d`, restricted to the ASCII digits. */
  predicate IsDigit(c: char) {
    '0' <= c <= '9'
  }

  predicate AllSpace(s: string) {
    forall i :: 0 <= i < |s| ==> IsSpace(s[i])
  }

  predicate AllDigits(s: string) {
    forall i :: 0 <= i < |s| ==> IsDigit(s[i])
  }

  /** Neither end of `s` is whitespace. */
  predicate IsTrimmed(s: string) {
    s == [] || (!IsSpace(s[0]) && !IsSpace(s[|s| - 1]))
  }

  /** Python's `s.lstrip()`: what is left after dropping the leading whitespace. */
  function TrimLeft(s: string): (r: string)
    ensures |r| <= |s| && AllSpace(s[..|s| - |r|])
    ensures r == [] || !IsSpace(r[0])
  {
    if s != [] && IsSpace(s[0]) then
      var r := TrimLeft(s[1..]);
      assert s[..|s| - |r|] == [s[0]] + s[1..][..|s| - 1 - |r|];
      r
    else
      s
  }

  /** What `lstrip` leaves is the rest of `s` after the dropped part. */
  lemma {:induction false} TrimLeftIsSuffix(s: string)
    ensures TrimLeft(s) == s[|s| - |TrimLeft(s)|..]
  {
    if s != [] && IsSpace(s[0]) {
      TrimLeftIsSuffix(s[1..]);
    }
  }

  /** One whitespace character before a non-whitespace one (or the end): `lstrip` drops just it. */
  lemma TrimLeftOneSpace(s: string)
    requires s != [] && IsSpace(s[0]) && (|s| == 1 || !IsSpace(s[1]))
    ensures TrimLeft(s) == s[1..]
  {
  }

  /** `lstrip` of a string of whitespace is empty. */
  lemma {:induction false} TrimLeftAllSpace(s: string)
    requires AllSpace(s)
    ensures TrimLeft(s) == []
  {
    if s != [] {
      assert AllSpace(s[1..]) by {
        forall i | 0 <= i < |s[1..]| ensures IsSpace(s[1..][i]) { assert s[1..][i] == s[i + 1]; }
      }
      TrimLeftAllSpace(s[1..]);
    }
  }

  /** Python's `s.rstrip()`: what is left after dropping the trailing whitespace. */
  function TrimRight(s: string): (r: string)
    ensures |r| <= |s| && AllSpace(s[|r|..])
    ensures r == [] || !IsSpace(r[|r| - 1])
  {
    if s != [] && IsSpace(s[|s| - 1]) then
      var r := TrimRight(s[..|s| - 1]);
      assert s[|r|..] == s[..|s| - 1][|r|..] + [s[|s| - 1]];
      r
    else
      s
  }

  /** What `rstrip` leaves is the start of `s` before the dropped part. */
  lemma {:induction false} TrimRightIsPrefix(s: string)
    ensures TrimRight(s) == s[..|TrimRight(s)|]
  {
    if s != [] && IsSpace(s[|s| - 1]) {
      TrimRightIsPrefix(s[..|s| - 1]);
    }
  }

  /** Python's `s.strip()`: no whitespace at either end of the result. */
  function Trim(s: string): (r: string)
    ensures |r| <= |s| && IsTrimmed(r)
  {
    var l := TrimLeft(s);
    var r := TrimRight(l);
    TrimRightIsPrefix(l);
    r
  }

  /**
   * `strip` keeps the slice of `s` that starts where `lstrip` stops, and
   * what it drops on either side is whitespace.
   */
  lemma TrimIsSlice(s: string)
    ensures |s| - |TrimLeft(s)| + |Trim(s)| <= |s|
    ensures Trim(s) == s[|s| - |TrimLeft(s)|..|s| - |TrimLeft(s)| + |Trim(s)|]
    ensures AllSpace(s[..|s| - |TrimLeft(s)|])
    ensures AllSpace(s[|s| - |TrimLeft(s)| + |Trim(s)|..])
  {
    var l := TrimLeft(s);
    var r := TrimRight(l);
    assert r == Trim(s);
    var a := |s| - |l|;
    TrimLeftIsSuffix(s);
    TrimRightIsPrefix(l);
    SliceOfSuffix(s, a, |r|);
  }

  /** Slicing a suffix of `s` is slicing `s` further along. */
  lemma SliceOfSuffix(s: string, a: nat, n: nat)
    requires a + n <= |s|
    ensures s[a..][..n] == s[a..a + n] && s[a..][n..] == s[a + n..]
  {
  }

  /** A string whose ends are not whitespace is its own `strip()`. */
  lemma TrimOfTrimmed(s: string)
    requires IsTrimmed(s)
    ensures Trim(s) == s
  {
    if s != [] {
      assert TrimLeft(s) == s;
      assert TrimRight(s) == s;
    }
  }

  /** `lstrip` leaves nothing exactly when `s` is all whitespace. */
  lemma {:induction false} TrimLeftEmptyIff(s: string)
    ensures TrimLeft(s) == [] <==> AllSpace(s)
  {
    if s != [] && IsSpace(s[0]) {
      TrimLeftEmptyIff(s[1..]);
      assert AllSpace(s) <==> AllSpace(s[1..]) by {
        if AllSpace(s[1..]) {
          forall i | 0 < i < |s| ensures IsSpace(s[i]) { assert s[i] == s[1..][i - 1]; }
        }
        if AllSpace(s) {
          forall i | 0 <= i < |s[1..]| ensures IsSpace(s[1..][i]) { assert s[1..][i] == s[i + 1]; }
        }
      }
    }
  }

  /** `s.strip()` is empty exactly when `s` is all whitespace (Python's `if not s.strip()`). */
  lemma TrimEmptyIffAllSpace(s: string)
    ensures Trim(s) == [] <==> AllSpace(s)
  {
    TrimLeftEmptyIff(s);
  }

  /**
   * Python's `s.split(sep)` for one separator character: the pieces between
   * separators, empty pieces included, so there is always at least one.
   */
  function Split(s: string, sep: char): (r: seq<string>)
    ensures |r| >= 1
    ensures forall i :: 0 <= i < |r| ==> sep !in r[i]
  {
    if s == [] then [[]]
    else
      var rest := Split(s[1..], sep);
      if s[0] == sep then [[]] + rest
      else [[s[0]] + rest[0]] + rest[1..]
  }

  /** Python's `sep.join(parts)`. */
  function Join(parts: seq<string>, sep: char): string {
    if parts == [] then []
    else if |parts| == 1 then parts[0]
    else parts[0] + [sep] + Join(parts[1..], sep)
  }

  /** Joining the pieces of a split gives the original text back. */
  lemma {:induction false} JoinSplit(s: string, sep: char)
    ensures Join(Split(s, sep), sep) == s
  {
    if s != [] {
      var rest := Split(s[1..], sep);
      JoinSplit(s[1..], sep);
      if s[0] == sep {
        assert Split(s, sep) == [[]] + rest;
        assert Join([[]] + rest, sep) == [] + [sep] + Join(rest, sep);
      } else {
        var r := [[s[0]] + rest[0]] + rest[1..];
        if |rest| == 1 {
          assert Join(r, sep) == [s[0]] + rest[0];
        } else {
          assert r[1..] == rest[1..];
          assert Join(r, sep) == [s[0]] + rest[0] + [sep] + Join(rest[1..], sep);
        }
      }
    }
  }

  /** Splitting a separator-free prefix `p` extends the first piece only. */
  lemma {:induction false} SplitPrefix(p: string, t: string, sep: char)
    requires sep !in p
    ensures Split(p + t, sep) == [p + Split(t, sep)[0]] + Split(t, sep)[1..]
  {
    if p != [] {
      assert (p + t)[1..] == p[1..] + t;
      SplitPrefix(p[1..], t, sep);
      assert [p[0]] + (p[1..] + Split(t, sep)[0]) == p + Split(t, sep)[0];
    } else {
      var r := Split(t, sep);
      assert p + t == t && p + r[0] == r[0];
      assert r == [r[0]] + r[1..];
    }
  }

  /** Splitting a join of separator-free pieces gives the pieces back. */
  lemma {:induction false} SplitJoin(parts: seq<string>, sep: char)
    requires |parts| >= 1
    requires forall i :: 0 <= i < |parts| ==> sep !in parts[i]
    ensures Split(Join(parts, sep), sep) == parts
  {
    if |parts| == 1 {
      SplitPrefix(parts[0], [], sep);
      assert parts[0] + [] == parts[0];
    } else {
      var tail := Join(parts[1..], sep);
      SplitJoin(parts[1..], sep);
      assert ([sep] + tail)[1..] == tail;
      assert Split([sep] + tail, sep) == [[]] + parts[1..];
      assert parts[0] + [sep] + tail == parts[0] + ([sep] + tail);
      SplitPrefix(parts[0], [sep] + tail, sep);
      assert parts[0] + [] == parts[0];
    }
  }
}
