/**
 * The two JavaScript string operations the extension relies on:
 * `String.prototype.startsWith` and `String.prototype.split` with a
 * one-character separator, on strings as sequences of characters.
 */
module JsString {

  /** `s.startsWith(p)`, compared character by character. */
  function StartsWith(s: string, p: string): (r: bool)
    ensures r <==> |p| <= |s| && s[..|p|] == p
  {
    if p == [] then true
    else if s == [] then false
    else s[0] == p[0] && StartsWith(s[1..], p[1..])
  }

  /**
   * `s.split(sep)` for a one-character separator: the maximal runs of
   * non-separator characters, including the empty runs before a leading,
   * after a trailing and between adjacent separators. `"".split(sep)` is
   * `[""]`, so the result is never empty.
   */
  function Split(s: string, sep: char): (parts: seq<string>)
    ensures |parts| >= 1
    ensures forall i :: 0 <= i < |parts| ==> sep !in parts[i]
  {
    if s == [] then [[]]
    else
      var rest := Split(s[1..], sep);
      if s[0] == sep then [[]] + rest
      else [[s[0]] + rest[0]] + rest[1..]
  }

  /** `parts.join(sep)`, the inverse of Split. */
  function Join(parts: seq<string>, sep: char): string
  {
    if parts == [] then []
    else if |parts| == 1 then parts[0]
    else parts[0] + [sep] + Join(parts[1..], sep)
  }

  /** Joining the pieces of a split gives back the original string. */
  lemma {:induction false} SplitJoin(s: string, sep: char)
    ensures Join(Split(s, sep), sep) == s
  {
    if s != [] {
      var rest := Split(s[1..], sep);
      SplitJoin(s[1..], sep);
      if s[0] == sep {
        assert ([[]] + rest)[1..] == rest;
      } else {
        var parts := Split(s, sep);
        if |rest| == 1 {
          assert parts == [[s[0]] + rest[0]];
        } else {
          assert parts[1..] == rest[1..];
          assert Join(rest, sep) == rest[0] + [sep] + Join(rest[1..], sep);
          assert s == [s[0]] + s[1..];
        }
      }
    }
  }

  /** A prefix free of separators is glued onto the first piece of what follows it. */
  lemma {:induction false} SplitAfterSegment(a: string, t: string, sep: char)
    requires sep !in a
    ensures Split(a + t, sep) == [a + Split(t, sep)[0]] + Split(t, sep)[1..]
  {
    if a != [] {
      SplitAfterSegment(a[1..], t, sep);
      assert (a + t)[0] == a[0];
      assert (a + t)[1..] == a[1..] + t;
      assert [a[0]] + (a[1..] + Split(t, sep)[0]) == a + Split(t, sep)[0];
    } else {
      var parts := Split(t, sep);
      assert a + t == t;
      assert a + parts[0] == parts[0];
      assert parts == [parts[0]] + parts[1..];
    }
  }

  /** A separator-free prefix followed by a separator becomes a piece of its own. */
  lemma SplitAtSeparator(a: string, rest: string, sep: char)
    requires sep !in a
    ensures Split(a + [sep] + rest, sep) == [a] + Split(rest, sep)
  {
    var t := [sep] + rest;
    SplitAfterSegment(a, t, sep);
    assert a + [sep] + rest == a + t;
    assert t[1..] == rest;
    assert Split(t, sep) == [[]] + Split(rest, sep);
    assert a + [] == a;
  }

  /** A string without separators splits into itself alone. */
  lemma SplitWithoutSeparator(a: string, sep: char)
    requires sep !in a
    ensures Split(a, sep) == [a]
  {
    SplitAfterSegment(a, [], sep);
    assert a + [] == a;
  }

  /** Splitting a join of separator-free pieces gives the pieces back. */
  lemma {:induction false} JoinSplit(parts: seq<string>, sep: char)
    requires |parts| >= 1
    requires forall i :: 0 <= i < |parts| ==> sep !in parts[i]
    ensures Split(Join(parts, sep), sep) == parts
  {
    if |parts| == 1 {
      SplitWithoutSeparator(parts[0], sep);
    } else {
      JoinSplit(parts[1..], sep);
      SplitAtSeparator(parts[0], Join(parts[1..], sep), sep);
      assert [parts[0]] + parts[1..] == parts;
    }
  }

  /**
   * The third piece of a split (index 2) is the run between the second and
   * third separators: `a/b/s` followed by nothing or by a separator.
   */
  lemma ThirdPiece(a: string, b: string, s: string, t: string, sep: char)
    requires sep !in a && sep !in b && sep !in s
    requires t == [] || t[0] == sep
    ensures |Split(a + [sep] + b + [sep] + s + t, sep)| >= 3
    ensures Split(a + [sep] + b + [sep] + s + t, sep)[2] == s
  {
    var x := a + [sep] + b + [sep] + s + t;
    assert x == a + [sep] + (b + [sep] + (s + t));
    SplitAtSeparator(a, b + [sep] + (s + t), sep);
    SplitAtSeparator(b, s + t, sep);
    SplitAfterSegment(s, t, sep);
    if t != [] {
      assert t == [t[0]] + t[1..];
      assert Split(t, sep) == [[]] + Split(t[1..], sep);
    }
    assert s + Split(t, sep)[0] == s;
  }

  /** Conversely, any string with at least three pieces has that shape around its third piece. */
  lemma ThirdPieceContext(x: string, sep: char) returns (a: string, b: string, t: string)
    requires |Split(x, sep)| >= 3
    ensures sep !in a && sep !in b
    ensures t == [] || t[0] == sep
    ensures x == a + [sep] + b + [sep] + Split(x, sep)[2] + t
  {
    var parts := Split(x, sep);
    SplitJoin(x, sep);
    a, b := parts[0], parts[1];
    assert parts[1..][1..] == parts[2..];
    assert Join(parts, sep) == a + [sep] + (b + [sep] + Join(parts[2..], sep));
    if |parts| == 3 {
      t := [];
      assert Join(parts[2..], sep) == parts[2];
    } else {
      t := [sep] + Join(parts[3..], sep);
      assert parts[2..][1..] == parts[3..];
      assert Join(parts[2..], sep) == parts[2] + t;
    }
  }
}
