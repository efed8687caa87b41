/**
 * The JavaScript string operations the authorization code relies on:
 * `startsWith`, `split(',')`, `join(',')` and `trim()`.
 */
module Strings {

  predicate StartsWith(s: string, prefix: string)
  {
    |prefix| <= |s| && s[..|prefix|] == prefix
  }

  /** The characters `String.prototype.trim` removes: the ECMAScript
      WhiteSpace and LineTerminator code points. */
  predicate IsSpace(c: char)
  {
    var n := c as int;
    n == 0x09 || n == 0x0A || n == 0x0B || n == 0x0C || n == 0x0D || n == 0x20 ||
    n == 0xA0 || n == 0x1680 || (0x2000 <= n <= 0x200A) || n == 0x2028 || n == 0x2029 ||
    n == 0x202F || n == 0x205F || n == 0x3000 || n == 0xFEFF
  }

  /** `s.split(sep)` for a one-character separator: one piece per separator
      plus one, so the empty string splits into one empty piece. */
  function Split(s: string, sep: char): (parts: seq<string>)
    ensures |parts| >= 1
    ensures forall i | 0 <= i < |parts| :: sep !in parts[i]
    decreases |s|
  {
    if |s| == 0 then [""]
    else if s[0] == sep then [""] + Split(s[1..], sep)
    else
      var rest := Split(s[1..], sep);
      [[s[0]] + rest[0]] + rest[1..]
  }

  /** `parts.join(sep)`: empty only for no parts or a single empty part. */
  function Join(parts: seq<string>, sep: char): (r: string)
    ensures r == "" <==> |parts| == 0 || (|parts| == 1 && parts[0] == "")
    decreases |parts|
  {
    if |parts| == 0 then ""
    else if |parts| == 1 then parts[0]
    else parts[0] + [sep] + Join(parts[1..], sep)
  }

  /** A piece without the separator is a whole piece. */
  lemma {:induction false} SplitNoSep(x: string, sep: char)
    requires sep !in x
    ensures Split(x, sep) == [x]
    decreases |x|
  {
    if |x| > 0 {
      SplitNoSep(x[1..], sep);
      assert [x[0]] + x[1..] == x;
    }
  }

  /** Splitting at a first separator peels off the piece before it. */
  lemma {:induction false} SplitAtFirstSep(x: string, sep: char, rest: string)
    requires sep !in x
    ensures Split(x + [sep] + rest, sep) == [x] + Split(rest, sep)
    decreases |x|
  {
    var s := x + [sep] + rest;
    if |x| == 0 {
      assert s[0] == sep && s[1..] == rest;
    } else {
      assert s[0] == x[0];
      assert s[1..] == x[1..] + [sep] + rest;
      SplitAtFirstSep(x[1..], sep, rest);
      assert [x[0]] + x[1..] == x;
    }
  }

  /** Joining the pieces of a split gives the original string back. */
  lemma {:induction false} JoinSplit(s: string, sep: char)
    ensures Join(Split(s, sep), sep) == s
    decreases |s|
  {
    if |s| == 0 {
    } else if s[0] == sep {
      JoinSplit(s[1..], sep);
      var rest := Split(s[1..], sep);
      assert Split(s, sep) == [""] + rest;
      assert Join([""] + rest, sep) == "" + [sep] + Join(rest, sep);
      assert s == [sep] + s[1..];
    } else {
      JoinSplit(s[1..], sep);
      var rest := Split(s[1..], sep);
      var first := [s[0]] + rest[0];
      assert Split(s, sep) == [first] + rest[1..];
      if |rest| == 1 {
        assert Join([first], sep) == first;
        assert rest == [rest[0]];
        assert s == [s[0]] + s[1..];
      } else {
        assert Join([first] + rest[1..], sep) == first + [sep] + Join(rest[1..], sep);
        assert Join(rest, sep) == rest[0] + [sep] + Join(rest[1..], sep);
        assert s == [s[0]] + s[1..];
      }
    }
  }

  /** Splitting a join of separator-free pieces gives the pieces back. */
  lemma {:induction false} SplitJoin(parts: seq<string>, sep: char)
    requires |parts| >= 1
    requires forall i | 0 <= i < |parts| :: sep !in parts[i]
    ensures Split(Join(parts, sep), sep) == parts
    decreases |parts|
  {
    if |parts| == 1 {
      SplitNoSep(parts[0], sep);
    } else {
      SplitJoin(parts[1..], sep);
      SplitAtFirstSep(parts[0], sep, Join(parts[1..], sep));
      assert [parts[0]] + parts[1..] == parts;
    }
  }

  function TrimStart(s: string): (r: string)
    decreases |s|
  {
    if |s| > 0 && IsSpace(s[0]) then TrimStart(s[1..]) else s
  }

  function TrimEnd(s: string): (r: string)
    decreases |s|
  {
    if |s| > 0 && IsSpace(s[|s| - 1]) then TrimEnd(s[..|s| - 1]) else s
  }

  /** `s.trim()`: drops leading and trailing white space. */
  function Trim(s: string): string
  {
    TrimEnd(TrimStart(s))
  }

  /** A string that neither starts nor ends with white space. */
  predicate Trimmed(s: string)
  {
    |s| == 0 || (!IsSpace(s[0]) && !IsSpace(s[|s| - 1]))
  }

  /** What trim keeps is a contiguous slice of the input, with white space
      removed only from the ends, and no white space left at either end. */
  lemma {:induction false} TrimIsSlice(s: string)
    ensures exists i, j | 0 <= i <= j <= |s| ::
              && Trim(s) == s[i..j]
              && (forall k | 0 <= k < i :: IsSpace(s[k]))
              && (forall k | j <= k < |s| :: IsSpace(s[k]))
    ensures Trimmed(Trim(s))
  {
    var i := TrimStartIndex(s);
    var t := s[i..];
    var j := TrimEndIndex(t);
    assert t[..j] == s[i..i + j];
    forall k | i + j <= k < |s|
      ensures IsSpace(s[k])
    {
      assert s[k] == t[k - i];
    }
    TrimEndTrimmed(t);
  }

  /** Index of the first character TrimStart keeps. */
  lemma {:induction false} TrimStartIndex(s: string) returns (i: nat)
    ensures i <= |s| && TrimStart(s) == s[i..]
    ensures forall k | 0 <= k < i :: IsSpace(s[k])
    ensures i < |s| ==> !IsSpace(s[i])
    decreases |s|
  {
    if |s| > 0 && IsSpace(s[0]) {
      var i' := TrimStartIndex(s[1..]);
      i := i' + 1;
      assert s[1..][i'..] == s[i..];
      forall k | 0 < k < i
        ensures IsSpace(s[k])
      {
        assert s[k] == s[1..][k - 1];
      }
    } else {
      i := 0;
    }
  }

  /** Length of what TrimEnd keeps. */
  lemma {:induction false} TrimEndIndex(s: string) returns (j: nat)
    ensures j <= |s| && TrimEnd(s) == s[..j]
    ensures forall k | j <= k < |s| :: IsSpace(s[k])
    ensures j > 0 ==> !IsSpace(s[j - 1])
    decreases |s|
  {
    if |s| > 0 && IsSpace(s[|s| - 1]) {
      j := TrimEndIndex(s[..|s| - 1]);
      assert s[..|s| - 1][..j] == s[..j];
      forall k | j <= k < |s|
        ensures IsSpace(s[k])
      {
        if k < |s| - 1 {
          assert s[k] == s[..|s| - 1][k];
        }
      }
    } else {
      j := |s|;
      assert s[..j] == s;
    }
  }

  /** TrimEnd of a string without leading white space leaves none at either end. */
  lemma TrimEndTrimmed(t: string)
    requires |t| == 0 || !IsSpace(t[0])
    ensures Trimmed(TrimEnd(t))
  {
    var j := TrimEndIndex(t);
    if j > 0 {
      assert TrimEnd(t)[0] == t[0];
    }
  }

  /** Trimming a string that is already trimmed changes nothing. */
  lemma {:induction false} TrimOfTrimmed(s: string)
    requires Trimmed(s)
    ensures Trim(s) == s
  {
    if |s| > 0 {
      assert TrimStart(s) == s;
      assert TrimEnd(s) == s;
    }
  }

  /** trim is idempotent. */
  lemma TrimIdempotent(s: string)
    ensures Trim(Trim(s)) == Trim(s)
  {
    TrimIsSlice(s);
    TrimOfTrimmed(Trim(s));
  }
}
