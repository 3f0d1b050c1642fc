/** The few Python string operations the core relies on: `str.split(sep)` with a
    one-character separator, its inverse `sep.join(parts)`, and `str.lower()`
    restricted to ASCII letters. */
module Text {

  /** `s.split(sep)`: the pieces of `s` between occurrences of `sep`, empty pieces
      included, so `"".split("_") == [""]` and `"a__b".split("_") == ["a", "", "b"]`. */
  function Split(s: string, sep: char): (parts: seq<string>)
    ensures |parts| >= 1
    ensures forall i :: 0 <= i < |parts| ==> sep !in parts[i]
    decreases |s|
  {
    if |s| == 0 then [""]
    else if s[0] == sep then [""] + Split(s[1..], sep)
    else
      var rest := Split(s[1..], sep);
      [[s[0]] + rest[0]] + rest[1..]
  }

  /** `sep.join(parts)`. */
  function Join(parts: seq<string>, sep: char): string
    requires |parts| >= 1
    decreases |parts|
  {
    if |parts| == 1 then parts[0] else parts[0] + [sep] + Join(parts[1..], sep)
  }

  /** Joining the pieces of a split gives back the original string. */
  lemma {:induction false} JoinSplit(s: string, sep: char)
    ensures Join(Split(s, sep), sep) == s
    decreases |s|
  {
    if |s| == 0 {
    } else if s[0] == sep {
      JoinSplit(s[1..], sep);
      assert s == [sep] + s[1..];
    } else {
      JoinSplit(s[1..], sep);
      var rest := Split(s[1..], sep);
      if |rest| == 1 {
        assert s == [s[0]] + s[1..];
      } else {
        assert Split(s, sep)[1..] == rest[1..];
        assert s == [s[0]] + s[1..];
      }
    }
  }

  /** Splitting a join of separator-free pieces gives back the pieces. */
  lemma {:induction false} SplitJoin(parts: seq<string>, sep: char)
    requires |parts| >= 1
    requires forall i :: 0 <= i < |parts| ==> sep !in parts[i]
    ensures Split(Join(parts, sep), sep) == parts
    decreases |parts|, |parts[0]|
  {
    var head := parts[0];
    if |head| == 0 {
      if |parts| == 1 {
      } else {
        SplitJoin(parts[1..], sep);
        assert Join(parts, sep) == [sep] + Join(parts[1..], sep);
        assert [""] + parts[1..] == parts;
      }
    } else {
      var shorter := parts[0 := head[1..]];
      SplitJoin(shorter, sep);
      assert shorter[1..] == parts[1..];
      assert Join(parts, sep) == [head[0]] + Join(shorter, sep);
      assert Join(parts, sep)[1..] == Join(shorter, sep);
      assert head[0] != sep;
      var rest := Split(Join(shorter, sep), sep);
      assert [head[0]] + rest[0] == head;
      assert [head] + rest[1..] == parts;
    }
  }

  /** A split has a second piece exactly when the separator occurs. */
  lemma {:induction false} SplitHasSecond(s: string, sep: char)
    ensures |Split(s, sep)| >= 2 <==> sep in s
    decreases |s|
  {
    if |s| > 0 && s[0] != sep {
      SplitHasSecond(s[1..], sep);
      assert sep in s <==> sep in s[1..];
    }
  }

  /** The first two pieces of a split with a separator sit at the front of the
      string, joined by that separator. */
  lemma SplitSecond(s: string, sep: char)
    requires sep in s
    ensures |Split(s, sep)| >= 2
    ensures var parts := Split(s, sep);
            s == parts[0] + [sep] + parts[1]
                 + (if |parts| == 2 then "" else [sep] + Join(parts[2..], sep))
  {
    SplitHasSecond(s, sep);
    JoinSplit(s, sep);
    var parts := Split(s, sep);
    assert parts[1..][1..] == parts[2..];
  }

  /** `str.lower()` on one character; only ASCII upper-case letters change. */
  function LowerChar(c: char): (d: char)
    ensures !('A' <= d <= 'Z')
    ensures 'a' <= d <= 'z' <==> ('a' <= c <= 'z' || 'A' <= c <= 'Z')
  {
    if 'A' <= c <= 'Z' then (c as int + 32) as char else c
  }

  /** `str.lower()`, character by character. */
  function Lower(s: string): (r: string)
    ensures |r| == |s|
    ensures forall i :: 0 <= i < |s| ==> r[i] == LowerChar(s[i])
  {
    if |s| == 0 then [] else [LowerChar(s[0])] + Lower(s[1..])
  }

  /** Lower-casing twice is lower-casing once. */
  lemma LowerIdempotent(s: string)
    ensures Lower(Lower(s)) == Lower(s)
  {
    var once := Lower(s);
    assert forall i :: 0 <= i < |s| ==> LowerChar(once[i]) == once[i];
  }
}
