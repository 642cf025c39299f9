/**
 * The two pieces of Go's `strings` package that the address parser relies
 * on, specialised to a one-character separator (the parser only ever splits
 * on '@' and ':').
 *
 * `Split` behaves as `strings.Split(s, sep)` for a non-empty separator: the
 * pieces are the maximal runs of `s` between occurrences of `sep`, so there
 * is always at least one piece, and an empty input gives `[""]`.
 * `Join` is `strings.Join` and serves as its inverse.
 */
module GoStrings {

  /** Glue the pieces back together with `sep` between neighbours. */
  function Join(parts: seq<string>, sep: char): (s: string)
    requires |parts| > 0
    ensures |parts| == 1 ==> s == parts[0]
    decreases |parts|
  {
    if |parts| == 1 then parts[0] else parts[0] + [sep] + Join(parts[1..], sep)
  }

  /** Cut `s` at every occurrence of `sep`. */
  function Split(s: string, sep: char): (parts: seq<string>)
    ensures |parts| >= 1
    ensures |parts| > 1 <==> sep in s
    ensures forall i :: 0 <= i < |parts| ==> sep !in parts[i]
    ensures forall i, c :: 0 <= i < |parts| && c in parts[i] ==> c in s
    ensures Join(parts, sep) == s
    decreases |s|
  {
    if |s| == 0 then
      [""]
    else if s[0] == sep then
      var rest := Split(s[1..], sep);
      assert Join([""] + rest, sep) == [sep] + Join(rest, sep) by {
        assert ([""] + rest)[1..] == rest;
      }
      assert [sep] + s[1..] == s;
      [""] + rest
    else
      var rest := Split(s[1..], sep);
      var parts := [[s[0]] + rest[0]] + rest[1..];
      assert Join(parts, sep) == s by {
        if |rest| == 1 {
          assert [s[0]] + s[1..] == s;
        } else {
          assert parts[1..] == rest[1..];
          assert Join(rest, sep) == rest[0] + [sep] + Join(rest[1..], sep);
          assert [s[0]] + s[1..] == s;
        }
      }
      parts
  }

  /** A text without the separator is a single piece. */
  lemma SplitWithout(s: string, sep: char)
    requires sep !in s
    ensures Split(s, sep) == [s]
  {
    var parts := Split(s, sep);
    assert |parts| == 1;
  }

  /**
   * Splitting at the first separator: the text before it is the first piece,
   * and the remaining pieces are those of the text after it.
   */
  lemma {:induction false} SplitAtFirst(u: string, sep: char, t: string)
    requires sep !in u
    ensures Split(u + [sep] + t, sep) == [u] + Split(t, sep)
    decreases |u|
  {
    var s := u + [sep] + t;
    if |u| == 0 {
      assert s[0] == sep && s[1..] == t;
    } else {
      assert s[0] == u[0] && s[0] != sep;
      assert s[1..] == u[1..] + [sep] + t;
      SplitAtFirst(u[1..], sep, t);
      assert [s[0]] + u[1..] == u;
    }
  }

  /**
   * Split is the inverse of Join on separator-free pieces: a list of pieces
   * none of which contains `sep` is exactly what Split recovers from its join.
   */
  lemma {:induction false} SplitJoin(parts: seq<string>, sep: char)
    requires |parts| > 0
    requires forall i :: 0 <= i < |parts| ==> sep !in parts[i]
    ensures Split(Join(parts, sep), sep) == parts
    decreases |parts|
  {
    if |parts| == 1 {
      SplitWithout(parts[0], sep);
    } else {
      assert sep !in parts[0];
      SplitJoin(parts[1..], sep);
      SplitAtFirst(parts[0], sep, Join(parts[1..], sep));
      assert [parts[0]] + parts[1..] == parts;
    }
  }
}
