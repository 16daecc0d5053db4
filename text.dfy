/** String helpers with Python's semantics: `str.strip()` with no argument
    and `str.split(sep)` with a one-character separator. */
module Text {

  /** The characters Python 2's `str.strip()` removes. */
  predicate IsSpace(c: char) {
    c == ' ' || c == '\t' || c == '\n' || c == '\r' || c == '\U{B}' || c == '\U{C}'
  }

  /** The number of whitespace characters `s` starts with. */
  function Leading(s: string): (k: nat)
    ensures k <= |s|
    ensures forall i :: 0 <= i < k ==> IsSpace(s[i])
    ensures k < |s| ==> !IsSpace(s[k])
    decreases |s|
  {
    if s != [] && IsSpace(s[0]) then 1 + Leading(s[1..]) else 0
  }

  /** `s` with its trailing whitespace removed. */
  function TrimRight(s: string): (t: string)
    ensures |t| <= |s| && t == s[..|t|]
    ensures forall i :: |t| <= i < |s| ==> IsSpace(s[i])
    ensures t == [] || !IsSpace(t[|t| - 1])
    decreases |s|
  {
    if s != [] && IsSpace(s[|s| - 1]) then TrimRight(s[..|s| - 1]) else s
  }

  /** Python's `s.strip()`: the slice of `s` left once whitespace is removed
      from both ends. */
  function Strip(s: string): (t: string)
    ensures Leading(s) + |t| <= |s| && t == s[Leading(s)..Leading(s) + |t|]
    ensures forall i :: 0 <= i < Leading(s) ==> IsSpace(s[i])
    ensures forall i :: Leading(s) + |t| <= i < |s| ==> IsSpace(s[i])
    ensures t == [] || (!IsSpace(t[0]) && !IsSpace(t[|t| - 1]))
  {
    var k := Leading(s);
    var t := TrimRight(s[k..]);
    assert forall i :: k + |t| <= i < |s| ==> s[i] == s[k..][i - k];
    t
  }

  /** A string without whitespace at either end is left alone by `Strip`. */
  lemma {:induction false} StripTrimmed(s: string)
    requires s == [] || (!IsSpace(s[0]) && !IsSpace(s[|s| - 1]))
    ensures Strip(s) == s
  {
  }

  /** No character of `s` is `sep`. */
  predicate Free(s: string, sep: char) {
    forall i :: 0 <= i < |s| ==> s[i] != sep
  }

  /** The text before the first `sep`, the whole of `s` when it has none. */
  function BeforeFirst(s: string, sep: char): (p: string)
    ensures |p| <= |s| && p == s[..|p|]
    ensures Free(p, sep)
    ensures |p| < |s| ==> s[|p|] == sep
    decreases |s|
  {
    if s == [] || s[0] == sep then [] else [s[0]] + BeforeFirst(s[1..], sep)
  }

  /** Python's `s.split(sep)`: the pieces of `s` between occurrences of
      `sep`, empty pieces included; there is always at least one, and the
      first is the text before the first `sep`. */
  function Split(s: string, sep: char): (fields: seq<string>)
    ensures |fields| >= 1 && fields[0] == BeforeFirst(s, sep)
    decreases |s|
  {
    var head := BeforeFirst(s, sep);
    if |head| == |s| then [s] else [head] + Split(s[|head| + 1..], sep)
  }

  /** No field holds the separator, and there is more than one field exactly
      when `s` holds it. */
  lemma {:induction false} SplitFields(s: string, sep: char)
    ensures forall k :: 0 <= k < |Split(s, sep)| ==> Free(Split(s, sep)[k], sep)
    ensures |Split(s, sep)| == 1 <==> Free(s, sep)
    decreases |s|
  {
    var head := BeforeFirst(s, sep);
    if |head| < |s| {
      var rest := s[|head| + 1..];
      SplitFields(rest, sep);
      assert Split(s, sep) == [head] + Split(rest, sep);
      assert !Free(s, sep) by { assert s[|head|] == sep; }
    } else {
      assert head == s;
    }
  }

  /** Joins `fields` with `sep` between consecutive ones. */
  function Join(fields: seq<string>, sep: char): string
    requires |fields| >= 1
  {
    if |fields| == 1 then fields[0] else fields[0] + [sep] + Join(fields[1..], sep)
  }

  /** Joining a field in front of a non-empty list of fields. */
  lemma JoinCons(head: string, tail: seq<string>, sep: char)
    requires |tail| >= 1
    ensures Join([head] + tail, sep) == head + [sep] + Join(tail, sep)
  {
    assert ([head] + tail)[1..] == tail;
  }

  /** Splitting loses nothing: joining the fields back gives the input. */
  lemma {:induction false} JoinSplit(s: string, sep: char)
    ensures Join(Split(s, sep), sep) == s
    decreases |s|
  {
    var head := BeforeFirst(s, sep);
    if |head| == |s| {
      assert head == s;
    } else {
      var rest := s[|head| + 1..];
      var tail := Split(rest, sep);
      assert Split(s, sep) == [head] + tail;
      JoinCons(head, tail, sep);
      JoinSplit(rest, sep);
      assert s == head + [sep] + rest;
    }
  }

  /** The text before the first `sep` of `a + [sep] + b`, when `a` has none, is `a`. */
  lemma {:induction false} BeforeFirstAt(a: string, sep: char, b: string)
    requires Free(a, sep)
    ensures BeforeFirst(a + [sep] + b, sep) == a
    decreases |a|
  {
    if a != [] {
      assert (a + [sep] + b)[1..] == a[1..] + [sep] + b;
      BeforeFirstAt(a[1..], sep, b);
    }
  }

  /** Splitting inverts joining when no field holds the separator. */
  lemma {:induction false} SplitJoin(fields: seq<string>, sep: char)
    requires |fields| >= 1
    requires forall k :: 0 <= k < |fields| ==> Free(fields[k], sep)
    ensures Split(Join(fields, sep), sep) == fields
    decreases |fields|
  {
    var s := Join(fields, sep);
    if |fields| == 1 {
      assert s == fields[0];
      assert |BeforeFirst(s, sep)| == |s|;
    } else {
      var rest := Join(fields[1..], sep);
      assert s == fields[0] + [sep] + rest;
      BeforeFirstAt(fields[0], sep, rest);
      assert s[|fields[0]| + 1..] == rest;
      SplitJoin(fields[1..], sep);
      assert Split(s, sep) == [fields[0]] + fields[1..];
    }
  }

  /** When `s` holds `sep`, the second field is the text after the first
      `sep`, up to the next one or the end of `s`. */
  lemma SplitSecond(s: string, sep: char)
    requires !Free(s, sep)
    ensures |BeforeFirst(s, sep)| < |s|
    ensures |Split(s, sep)| >= 2
    ensures Split(s, sep)[1] == BeforeFirst(s[|BeforeFirst(s, sep)| + 1..], sep)
  {
    SplitFields(s, sep);
    var fields := Split(s, sep);
    var head := BeforeFirst(s, sep);
    assert |head| < |s|;
    var tail := Split(s[|head| + 1..], sep);
    assert fields == [head] + tail;
    assert fields[1] == tail[0];
  }

  /** The shape of `s` around its first two fields: the first field, `sep`,
      the second field, then the end of `s` or another `sep`. */
  lemma FirstTwoFields(s: string, sep: char)
    requires |BeforeFirst(s, sep)| < |s|
    ensures var head := BeforeFirst(s, sep);
            var second := BeforeFirst(s[|head| + 1..], sep);
            var end := |head| + 1 + |second|;
            end <= |s| && s[..end] == head + [sep] + second && (end < |s| ==> s[end] == sep)
  {
    var head := BeforeFirst(s, sep);
    var rest := s[|head| + 1..];
    var second := BeforeFirst(rest, sep);
    assert s == head + [sep] + rest;
    assert second == rest[..|second|];
    var end := |head| + 1 + |second|;
    assert s[..end] == head + [sep] + rest[..|second|];
    assert end < |s| ==> s[end] == rest[|second|];
  }
}
