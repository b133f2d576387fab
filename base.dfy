/** Small shared vocabulary: an optional value and the string operations the
    server uses (`Array.prototype.join`, `String.prototype.split` on one character). */
module Base {

  datatype Option<+T> = None | Some(value: T)

  /** `parts.join(sep)`: the parts in order with `sep` between neighbours. */
  function Join(parts: seq<string>, sep: string): (r: string)
    ensures parts == [] ==> r == ""
    ensures |parts| == 1 ==> r == parts[0]
  {
    if parts == [] then ""
    else if |parts| == 1 then parts[0]
    else parts[0] + sep + Join(parts[1..], sep)
  }

  predicate HasPrefix(s: string, p: string)
  {
    |p| <= |s| && s[..|p|] == p
  }

  /** The maximal leading run of `s` that does not contain `c`. */
  function RunBefore(s: string, c: char): (r: string)
    ensures |r| <= |s| && r == s[..|r|]
    ensures forall i :: 0 <= i < |r| ==> r[i] != c
    ensures |r| < |s| ==> s[|r|] == c
  {
    if s == [] || s[0] == c then "" else [s[0]] + RunBefore(s[1..], c)
  }

  /** `s.split(c)` for a one-character separator: the pieces between the
      occurrences of `c`, in order, always at least one. */
  function SplitOn(s: string, c: char): (r: seq<string>)
    ensures |r| >= 1
    ensures forall i :: 0 <= i < |r| ==> c !in r[i]
    decreases |s|
  {
    var head := RunBefore(s, c);
    if |head| == |s| then [s] else [head] + SplitOn(s[|head| + 1..], c)
  }

  lemma {:induction false} JoinSplitOn(s: string, c: char)
    ensures Join(SplitOn(s, c), [c]) == s
    decreases |s|
  {
    var head := RunBefore(s, c);
    if |head| < |s| {
      var rest := s[|head| + 1..];
      JoinSplitOn(rest, c);
      var parts := SplitOn(rest, c);
      assert SplitOn(s, c) == [head] + parts;
      assert s == head + [c] + rest;
    }
  }

  /** The run before `c` ends at the first `c`. */
  lemma RunBeforeDelimiter(x: string, c: char, y: string)
    requires c !in x
    ensures RunBefore(x + [c] + y, c) == x
  {
    var s := x + [c] + y;
    var r := RunBefore(s, c);
    assert s[|x|] == c;
    assert forall i :: 0 <= i < |x| ==> s[i] == x[i] && x[i] != c;
    assert r == s[..|x|] == x;
  }
}
