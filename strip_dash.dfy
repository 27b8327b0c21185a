/** `stripDash` of the point generation tool: removes every `-` from a string by
    splitting on `-` and concatenating the parts. */
module DashStripping {

  /** The input with every `-` dropped and every other character kept, in order. */
  function WithoutDashes(s: string): string
  {
    if s == [] then []
    else (if s[0] == '-' then [] else [s[0]]) + WithoutDashes(s[1..])
  }

  /** The number of `-` characters in `s`. */
  function CountDashes(s: string): nat
  {
    if s == [] then 0 else (if s[0] == '-' then 1 else 0) + CountDashes(s[1..])
  }

  /** Python's `s.split('-')`: the pieces between consecutive dashes, empty pieces
      included, so there is always one more piece than there are dashes. */
  function Split(s: string): (parts: seq<string>)
    ensures |parts| == CountDashes(s) + 1
  {
    if s == [] then [""]
    else
      var rest := Split(s[1..]);
      if s[0] == '-' then [""] + rest else [[s[0]] + rest[0]] + rest[1..]
  }

  /** Python's `'-'.join(parts)`. */
  function Join(parts: seq<string>): string
    requires |parts| >= 1
  {
    if |parts| == 1 then parts[0] else parts[0] + "-" + Join(parts[1..])
  }

  /** The parts glued together with nothing between them. */
  function Concat(parts: seq<string>): string
  {
    if parts == [] then "" else parts[0] + Concat(parts[1..])
  }

  /** `stripDash`: with a dash present, split on `-` and append the parts one by one;
      otherwise return the input as it is. */
  method StripDash(s: string) returns (r: string)
    ensures r == WithoutDashes(s)
    ensures '-' !in r
    ensures |r| == |s| - CountDashes(s)
  {
    var newString := "";
    if '-' in s {
      var parts := Split(s);
      for i := 0 to |parts|
        invariant newString == Concat(parts[..i])
      {
        ConcatSnoc(parts, i);
        newString := newString + parts[i];
      }
      assert parts[..|parts|] == parts;
      ConcatSplit(s);
      r := newString;
    } else {
      NoDashUnchanged(s);
      r := s;
    }
    WithoutDashesFacts(s);
  }

  lemma {:induction false} ConcatSnoc(parts: seq<string>, i: nat)
    requires i < |parts|
    ensures Concat(parts[..i + 1]) == Concat(parts[..i]) + parts[i]
  {
    if i > 0 {
      ConcatSnoc(parts[1..], i - 1);
      assert parts[1..][..i] == parts[..i + 1][1..];
      assert parts[1..][..i - 1] == parts[..i][1..];
    } else {
      assert parts[..1] == [parts[0]];
    }
  }

  /** Concatenating the pieces of a split is the same as dropping the dashes. */
  lemma {:induction false} ConcatSplit(s: string)
    ensures Concat(Split(s)) == WithoutDashes(s)
  {
    if s != [] {
      ConcatSplit(s[1..]);
      var rest := Split(s[1..]);
      if s[0] != '-' {
        assert Concat(rest) == rest[0] + Concat(rest[1..]);
        assert [[s[0]] + rest[0]] + rest[1..] == Split(s);
      }
    }
  }

  /** Joining the pieces of a split with `-` gives back the input, and no piece holds a
      dash: `Split` loses nothing but the separators. */
  lemma {:induction false} SplitJoin(s: string)
    ensures Join(Split(s)) == s
    ensures forall k :: 0 <= k < |Split(s)| ==> '-' !in Split(s)[k]
  {
    if s != [] {
      SplitJoin(s[1..]);
      var rest := Split(s[1..]);
      if s[0] == '-' {
        assert ([""] + rest)[1..] == rest;
      } else {
        var parts := [[s[0]] + rest[0]] + rest[1..];
        if |rest| > 1 {
          assert parts[1..] == rest[1..];
        }
        assert [s[0]] + s[1..] == s;
        forall k | 0 <= k < |parts| ensures '-' !in parts[k] {
          if k > 0 { assert parts[k] == rest[k]; }
        }
      }
    }
  }

  /** A string without dashes is its own result. */
  lemma {:induction false} NoDashUnchanged(s: string)
    requires '-' !in s
    ensures WithoutDashes(s) == s
  {
    if s != [] {
      assert '-' !in s[1..] by {
        forall k | 0 <= k < |s[1..]| ensures s[1..][k] != '-' {
          assert s[1..][k] == s[k + 1];
        }
      }
      NoDashUnchanged(s[1..]);
      assert [s[0]] + s[1..] == s;
    }
  }

  /** The result holds no dash and is shorter than the input by exactly the number of
      dashes, consecutive dashes included. */
  lemma {:induction false} WithoutDashesFacts(s: string)
    ensures '-' !in WithoutDashes(s)
    ensures |WithoutDashes(s)| == |s| - CountDashes(s)
  {
    if s != [] {
      WithoutDashesFacts(s[1..]);
    }
  }

  /** Dropping dashes works piecewise: the result for `a + b` is the result for `a`
      followed by the result for `b`, so the kept characters stay in their order. */
  lemma {:induction false} WithoutDashesAppend(a: string, b: string)
    ensures WithoutDashes(a + b) == WithoutDashes(a) + WithoutDashes(b)
  {
    if a != [] {
      WithoutDashesAppend(a[1..], b);
      assert (a + b)[1..] == a[1..] + b;
    } else {
      assert a + b == b;
    }
  }

  /** Stripping twice is stripping once. */
  lemma StripIdempotent(s: string)
    ensures WithoutDashes(WithoutDashes(s)) == WithoutDashes(s)
  {
    WithoutDashesFacts(s);
    NoDashUnchanged(WithoutDashes(s));
  }
}
