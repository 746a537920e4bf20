/**
  Models of the functions of Go's `strings` package that the egress probe
  uses.  A Go string is seen here as the sequence of its code points (runes);
  every separator the probe searches for is ASCII, so positions in runes and
  positions in bytes pick out the same pieces of a valid UTF-8 string.
*/
module GoStrings {

  /** `pat` occurs in `s` starting at position `i`. */
  predicate OccursAt(s: string, pat: string, i: int)
  {
    0 <= i && i + |pat| <= |s| && s[i..i + |pat|] == pat
  }

  /** The first occurrence of `pat` in `s` at or after `from`, or -1. */
  function IndexFrom(s: string, pat: string, from: nat): (r: int)
    requires from <= |s|
    ensures r == -1 || (from <= r && OccursAt(s, pat, r))
    ensures forall i | from <= i && (r == -1 || i < r) :: !OccursAt(s, pat, i)
    decreases |s| - from
  {
    if from + |pat| > |s| then -1
    else if |pat| == 0 || s[from..from + |pat|] == pat then from
    else IndexFrom(s, pat, from + 1)
  }

  /** strings.Index: the first position of `pat` in `s`, or -1 when it does not occur. */
  function IndexOf(s: string, pat: string): (r: int)
    ensures r == -1 || OccursAt(s, pat, r)
    ensures forall i | 0 <= i && (r == -1 || i < r) :: !OccursAt(s, pat, i)
  {
    IndexFrom(s, pat, 0)
  }

  /** The last occurrence of `pat` in `s` strictly before position `end`, or -1. */
  function LastIndexBefore(s: string, pat: string, end: nat): (r: int)
    ensures -1 <= r < end
    ensures r >= 0 ==> OccursAt(s, pat, r)
    ensures forall i | r < i < end :: !OccursAt(s, pat, i)
    decreases end
  {
    if end == 0 then -1
    else if OccursAt(s, pat, end - 1) then end - 1
    else LastIndexBefore(s, pat, end - 1)
  }

  /** strings.LastIndex: the last position of `pat` in `s`, or -1 when it does not occur. */
  function LastIndexOf(s: string, pat: string): (r: int)
    ensures r == -1 || OccursAt(s, pat, r)
    ensures forall i | r < i :: !OccursAt(s, pat, i)
  {
    LastIndexBefore(s, pat, |s| + 1)
  }

  /** strings.Contains. */
  function Contains(s: string, pat: string): (b: bool)
    ensures b <==> exists i :: OccursAt(s, pat, i)
  {
    IndexOf(s, pat) >= 0
  }

  /** A one-rune pattern occurs exactly where that rune stands. */
  lemma OccursAtChar(s: string, c: char, i: int)
    ensures OccursAt(s, [c], i) <==> 0 <= i < |s| && s[i] == c
  {
    if 0 <= i < |s| {
      assert s[i..i + 1] == [s[i]];
    }
  }

  /** Searching for one rune: found exactly when the rune is in the string. */
  lemma ContainsChar(s: string, c: char)
    ensures Contains(s, [c]) <==> c in s
  {
    if c in s {
      var i :| 0 <= i < |s| && s[i] == c;
      OccursAtChar(s, c, i);
    } else {
      forall i ensures !OccursAt(s, [c], i) {
        OccursAtChar(s, c, i);
      }
    }
  }

  /** A pattern that holds a rune `s` lacks does not occur in `s`. */
  lemma AbsentCharNotContained(s: string, pat: string, k: nat)
    requires k < |pat| && pat[k] !in s
    ensures !Contains(s, pat)
    ensures IndexOf(s, pat) == -1 && LastIndexOf(s, pat) == -1
  {
    forall i ensures !OccursAt(s, pat, i) {
      if 0 <= i && i + |pat| <= |s| {
        assert s[i..i + |pat|][k] == s[i + k];
      }
    }
  }

  /** The first `c` in `a + [c] + b` is the separator itself when `a` has none. */
  lemma FirstCharAt(a: string, c: char, b: string)
    requires c !in a
    ensures IndexOf(a + [c] + b, [c]) == |a|
  {
    var s := a + [c] + b;
    OccursAtChar(s, c, |a|);
    var r := IndexOf(s, [c]);
    OccursAtChar(s, c, r);
  }

  /** The last `c` in `a + [c] + b` is the separator itself when `b` has none. */
  lemma LastCharAt(a: string, c: char, b: string)
    requires c !in b
    ensures LastIndexOf(a + [c] + b, [c]) == |a|
  {
    var s := a + [c] + b;
    OccursAtChar(s, c, |a|);
    var r := LastIndexOf(s, [c]);
    OccursAtChar(s, c, r);
  }

  /** When `a` lacks the first rune of `pat` and `b` starts with `pat`, the first occurrence is at `|a|`. */
  lemma IndexOfAfterPrefix(a: string, b: string, pat: string)
    requires |pat| >= 1 && pat[0] !in a && OccursAt(b, pat, 0)
    ensures IndexOf(a + b, pat) == |a|
  {
    var s := a + b;
    assert s[|a|..|a| + |pat|] == b[..|pat|];
    assert OccursAt(s, pat, |a|);
  }

  /** An infix of an infix of `s` is an infix of `s`. */
  lemma ContainsTransitive(s: string, mid: string, pat: string)
    requires Contains(s, mid) && Contains(mid, pat)
    ensures Contains(s, pat)
  {
    var i :| OccursAt(s, mid, i);
    var j :| OccursAt(mid, pat, j);
    forall m | 0 <= m < |pat| ensures s[i + j + m] == pat[m] {
      assert pat[m] == mid[j..j + |pat|][m] == mid[j + m];
      assert mid[j + m] == s[i..i + |mid|][j + m];
    }
    assert s[i + j..i + j + |pat|] == pat;
    assert OccursAt(s, pat, i + j);
  }

  /** strings.Split with a one-rune separator: the pieces between separators. */
  function Split(s: string, sep: char): (fields: seq<string>)
    ensures |fields| >= 1
    ensures forall k | 0 <= k < |fields| :: sep !in fields[k]
    ensures Join(fields, sep) == s
    decreases |s|
  {
    var i := IndexOf(s, [sep]);
    if i < 0 then
      ContainsChar(s, sep);
      [s]
    else
      assert sep !in s[..i] by {
        forall j | 0 <= j < i ensures s[j] != sep {
          OccursAtChar(s, sep, j);
        }
      }
      OccursAtChar(s, sep, i);
      var rest := Split(s[i + 1..], sep);
      assert s == s[..i] + [sep] + s[i + 1..];
      [s[..i]] + rest
  }

  /** strings.Join with a one-rune separator. */
  function Join(fields: seq<string>, sep: char): (s: string)
    requires |fields| >= 1
    ensures |s| >= |fields| - 1
  {
    if |fields| == 1 then fields[0] else fields[0] + [sep] + Join(fields[1..], sep)
  }

  /** Split undoes Join whenever no piece contains the separator. */
  lemma {:induction false} SplitJoin(fields: seq<string>, sep: char)
    requires |fields| >= 1
    requires forall k | 0 <= k < |fields| :: sep !in fields[k]
    ensures Split(Join(fields, sep), sep) == fields
    decreases |fields|
  {
    if |fields| == 1 {
      AbsentCharNotContained(fields[0], [sep], 0);
    } else {
      var s := Join(fields, sep);
      var tail := Join(fields[1..], sep);
      FirstCharAt(fields[0], sep, tail);
      assert s[|fields[0]| + 1..] == tail;
      assert s[..|fields[0]|] == fields[0];
      SplitJoin(fields[1..], sep);
    }
  }

  /** The first piece of `a + [sep] + b` is `a` when `a` holds no separator. */
  lemma SplitAtFirst(a: string, sep: char, b: string)
    requires sep !in a
    ensures Split(a + [sep] + b, sep) == [a] + Split(b, sep)
  {
    var s := a + [sep] + b;
    FirstCharAt(a, sep, b);
    assert s[..|a|] == a && s[|a| + 1..] == b;
  }

  /** The position of the first separator in a string that holds one. */
  lemma FirstSeparator(a: string, sep: char) returns (i: nat)
    requires sep in a
    ensures i < |a| && sep !in a[..i] && a == a[..i] + [sep] + a[i + 1..]
  {
    ContainsChar(a, sep);
    i := IndexOf(a, [sep]);
    OccursAtChar(a, sep, i);
    forall j | 0 <= j < i ensures a[j] != sep {
      OccursAtChar(a, sep, j);
    }
  }

  /** Regrouping a concatenation; kept apart so that proofs whose context holds quantified facts about the pieces stay cheap to check. */
  lemma AppendAssoc<T>(a: seq<T>, b: seq<T>, c: seq<T>)
    ensures a + (b + c) == (a + b) + c
  {
  }

  /** Splitting at a separator splits the list of pieces at the same place. */
  lemma {:induction false} SplitAppend(a: string, sep: char, b: string)
    ensures Split(a + [sep] + b, sep) == Split(a, sep) + Split(b, sep)
    decreases |a|
  {
    if sep !in a {
      assert Split(a, sep) == [a] by {
        ContainsChar(a, sep);
      }
      SplitAtFirst(a, sep, b);
    } else {
      var i := FirstSeparator(a, sep);
      var head, tail := a[..i], a[i + 1..];
      assert Split(a, sep) == [head] + Split(tail, sep) by {
        SplitAtFirst(head, sep, tail);
      }
      assert Split(a + [sep] + b, sep) == [head] + Split(tail + [sep] + b, sep) by {
        assert a + [sep] + b == head + [sep] + (tail + [sep] + b);
        SplitAtFirst(head, sep, tail + [sep] + b);
      }
      SplitAppend(tail, sep, b);
      AppendAssoc([head], Split(tail, sep), Split(b, sep));
    }
  }

  /** unicode.IsSpace: the Unicode White_Space code points. */
  predicate IsSpace(c: char)
  {
    || ('\t' <= c <= '\r') || c == ' ' || c == '\U{0085}' || c == '\U{00A0}'
    || c == '\U{1680}' || ('\U{2000}' <= c <= '\U{200A}')
    || c == '\U{2028}' || c == '\U{2029}' || c == '\U{202F}' || c == '\U{205F}'
    || c == '\U{3000}'
  }

  /** The index of the first rune at or after `from` that is not white space, or `|s|`. */
  function SkipSpace(s: string, from: nat): (i: nat)
    requires from <= |s|
    ensures from <= i <= |s|
    ensures forall k | from <= k < i :: IsSpace(s[k])
    ensures i == |s| || !IsSpace(s[i])
    decreases |s| - from
  {
    if from == |s| || !IsSpace(s[from]) then from else SkipSpace(s, from + 1)
  }

  /** The index just past the last rune before `end` that is not white space, or 0. */
  function SkipSpaceBack(s: string, end: nat): (j: nat)
    requires end <= |s|
    ensures j <= end
    ensures forall k | j <= k < end :: IsSpace(s[k])
    ensures j == 0 || !IsSpace(s[j - 1])
    decreases end
  {
    if end == 0 || !IsSpace(s[end - 1]) then end else SkipSpaceBack(s, end - 1)
  }

  /**
    strings.TrimSpace: the piece of `s` left when leading and trailing white
    space is removed; it is empty exactly when `s` is all white space.
  */
  function TrimSpace(s: string): (r: string)
    ensures r == [] || (!IsSpace(r[0]) && !IsSpace(r[|r| - 1]))
    ensures r == [] <==> forall i | 0 <= i < |s| :: IsSpace(s[i])
    ensures Contains(s, r)
    ensures exists i | OccursAt(s, r, i) ::
      && (forall k | 0 <= k < i :: IsSpace(s[k]))
      && (forall k | i + |r| <= k < |s| :: IsSpace(s[k]))
  {
    var lo := SkipSpace(s, 0);
    if lo == |s| then
      assert OccursAt(s, [], 0);
      []
    else
      var hi := SkipSpaceBack(s, |s|);
      assert lo < hi;
      assert OccursAt(s, s[lo..hi], lo);
      s[lo..hi]
  }

  /** The lower-case form of an ASCII letter; every other rune is unchanged. */
  function LowerAscii(c: char): (d: char)
    ensures 'A' <= c <= 'Z' ==> 'a' <= d <= 'z' && d as int == c as int - 'A' as int + 'a' as int
    ensures !('A' <= c <= 'Z') ==> d == c
  {
    if 'A' <= c <= 'Z' then (c as int - 'A' as int + 'a' as int) as char else c
  }

  /** strings.ToLower, on the ASCII letters. */
  function ToLower(s: string): (r: string)
    ensures |r| == |s|
    ensures forall i | 0 <= i < |s| :: r[i] == LowerAscii(s[i])
  {
    seq(|s|, i requires 0 <= i < |s| => LowerAscii(s[i]))
  }

  /** strings.Repeat(" ", n). */
  function Spaces(n: nat): (r: string)
    ensures |r| == n
    ensures forall i | 0 <= i < n :: r[i] == ' '
  {
    seq(n, _ => ' ')
  }
}
