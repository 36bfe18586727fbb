/**
 * Splitting an invoker's target name `"<Class>.<method>"` the way the
 * data handler does: `indexOf('.')` followed by two `String.slice` calls,
 * with the JavaScript meaning of a negative index.
 */
module TargetName {

  /** `s.indexOf(c)`: the first position of `c`, or -1 when it is absent. */
  function IndexOf(s: string, c: char): (i: int)
    ensures -1 <= i < |s|
    ensures i >= 0 ==> s[i] == c && c !in s[..i]
    ensures i == -1 <==> c !in s
  {
    if s == [] then -1
    else if s[0] == c then 0
    else
      var j := IndexOf(s[1..], c);
      assert s == [s[0]] + s[1..];
      if j < 0 then -1 else j + 1
  }

  /** A `String.slice` bound: negative counts from the end, then clamped. */
  function ClampIndex(k: int, len: nat): (r: nat)
    ensures r <= len
  {
    if k < 0 then (if len + k < 0 then 0 else len + k)
    else if k > len then len
    else k
  }

  /** `s.slice(start, end)`. */
  function Slice(s: string, start: int, end: int): (r: string)
    ensures |r| <= |s|
  {
    var from := ClampIndex(start, |s|);
    var to := ClampIndex(end, |s|);
    if from >= to then "" else s[from..to]
  }

  /**
   * `className` and `methodName` of a target: the text either side of
   * the first `.`; without a `.`, as written, the name less its last
   * character and the whole name.
   */
  function Split(name: string): (parts: (string, string))
  {
    var index := IndexOf(name, '.');
    (Slice(name, 0, index), Slice(name, index + 1, |name|))
  }

  function ClassName(name: string): string { Split(name).0 }

  function MethodName(name: string): string { Split(name).1 }

  /**
   * With a `.`, the parts rebuild the name around its first `.`, and the
   * class part holds no `.`.
   */
  lemma SplitAtFirstDot(name: string)
    requires '.' in name
    ensures ClassName(name) + "." + MethodName(name) == name
    ensures '.' !in ClassName(name)
  {
  }

  /**
   * Without a `.`, `indexOf` gives -1: the class part is the name less
   * its last character and the method part is the whole name.
   */
  lemma SplitWithoutDot(name: string)
    requires '.' !in name
    ensures MethodName(name) == name
    ensures ClassName(name) == if name == "" then "" else name[..|name| - 1]
  {
  }

  /** A target without a `.` names a class that may not exist: `"echo"` looks up class `"ech"`. */
  lemma UndottedExample()
    ensures Split("echo") == ("ech", "echo")
  {
    assert '.' !in "echo";
    SplitWithoutDot("echo");
    assert "echo"[..3] == "ech";
  }
}
