/**
 * The table key of a service class: the class name without one trailing
 * `Service`, with a leading ASCII capital lower-cased
 * (`name.replace(/Service$/, '').replace(/^[A-Z]/, toLowerCase)`), and the
 * table that the provider's constructor folds the classes into.
 */
module ServiceKeys {
  import opened Services

  const Suffix: string := "Service"

  predicate IsAsciiUpper(c: char)
  {
    'A' <= c <= 'Z'
  }

  /** `c` lower-cased when it is an ASCII capital, as `toLowerCase` does to `[A-Z]`. */
  function ToLowerAscii(c: char): (d: char)
    requires IsAsciiUpper(c)
    ensures 'a' <= d <= 'z' && d as int - c as int == 32
  {
    (c as int + 32) as char
  }

  predicate EndsWithSuffix(name: string)
  {
    |name| >= |Suffix| && name[|name| - |Suffix|..] == Suffix
  }

  /** `/Service$/` replaced by the empty string: at most one suffix goes. */
  function StripServiceSuffix(name: string): (r: string)
    ensures EndsWithSuffix(name) ==> r + Suffix == name
    ensures !EndsWithSuffix(name) ==> r == name
  {
    if EndsWithSuffix(name) then name[..|name| - |Suffix|] else name
  }

  /** `/^[A-Z]/` replaced by its lower-case letter; nothing else moves. */
  function LowerLeadingCapital(s: string): (r: string)
    ensures |r| == |s|
    ensures forall i :: 0 < i < |s| ==> r[i] == s[i]
    ensures |s| > 0 ==> !IsAsciiUpper(r[0])
    ensures |s| > 0 && IsAsciiUpper(s[0]) ==> r[0] == ToLowerAscii(s[0])
    ensures |s| > 0 && !IsAsciiUpper(s[0]) ==> r == s
  {
    if |s| > 0 && IsAsciiUpper(s[0]) then [ToLowerAscii(s[0])] + s[1..] else s
  }

  /** The key a class named `name` is filed under. */
  function ServiceKey(name: string): string
  {
    LowerLeadingCapital(StripServiceSuffix(name))
  }

  /**
   * The key is the name less one trailing `Service`; only its first
   * character may differ, and then only from an ASCII capital to its
   * lower-case letter.
   */
  lemma ServiceKeyShape(name: string)
    ensures var stem := StripServiceSuffix(name);
      var key := ServiceKey(name);
      && |key| == (if EndsWithSuffix(name) then |name| - |Suffix| else |name|)
      && (forall i :: 0 < i < |key| ==> key[i] == name[i])
      && (|key| > 0 ==> key[0] == (if IsAsciiUpper(stem[0]) then ToLowerAscii(stem[0]) else stem[0]))
      && (|key| > 0 ==> !IsAsciiUpper(key[0]))
  {
  }

  /** `FooService` and `Foo` share the key `foo`; only one suffix is dropped. */
  lemma SuffixedNameKey(stem: string)
    ensures ServiceKey(stem + Suffix) == LowerLeadingCapital(stem)
  {
  }

  /** A name without the suffix and without a leading capital is its own key. */
  lemma PlainNameKey(name: string)
    requires !EndsWithSuffix(name)
    requires |name| == 0 || !IsAsciiUpper(name[0])
    ensures ServiceKey(name) == name
  {
  }

  /** Concrete keys: `UserService` is `user`, `ServiceService` is `service`. */
  lemma ExampleKeys()
    ensures ServiceKey("UserService") == "user"
    ensures ServiceKey("ServiceService") == "service"
    ensures ServiceKey("Service") == ""
    ensures ServiceKey("order") == "order"
  {
  }

  /**
   * The table the constructor's `reduce` builds: classes are filed in
   * order, so a later class overwrites an earlier one with the same key.
   */
  function ClassTable(classes: seq<ServiceClass>): map<string, ServiceClass>
  {
    if classes == [] then map[]
    else
      var last := classes[|classes| - 1];
      ClassTable(classes[..|classes| - 1])[ServiceKey(last.name) := last]
  }

  /**
   * The index of the last class filed under `key`, or -1 when none is:
   * an independent description of "the later class wins".
   */
  function LastWithKey(classes: seq<ServiceClass>, key: string): (i: int)
    ensures -1 <= i < |classes|
    ensures i >= 0 ==> ServiceKey(classes[i].name) == key
    ensures forall j :: i < j < |classes| ==> ServiceKey(classes[j].name) != key
  {
    if classes == [] then -1
    else if ServiceKey(classes[|classes| - 1].name) == key then |classes| - 1
    else LastWithKey(classes[..|classes| - 1], key)
  }

  /**
   * A key is in the table exactly when some class has it, and it maps to
   * the last such class.
   */
  lemma {:induction false} ClassTableLastWins(classes: seq<ServiceClass>, key: string)
    ensures key in ClassTable(classes) <==> LastWithKey(classes, key) >= 0
    ensures key in ClassTable(classes) ==> ClassTable(classes)[key] == classes[LastWithKey(classes, key)]
  {
    if classes != [] {
      var init := classes[..|classes| - 1];
      ClassTableLastWins(init, key);
      if ServiceKey(classes[|classes| - 1].name) != key {
        assert LastWithKey(classes, key) == LastWithKey(init, key);
        var i := LastWithKey(init, key);
        if i >= 0 {
          assert classes[i] == init[i];
        }
      }
    }
  }

  /** The constructor's fold, as the loop it is. */
  method BuildClassTable(classes: seq<ServiceClass>) returns (table: map<string, ServiceClass>)
    ensures table == ClassTable(classes)
    ensures forall i :: 0 <= i < |classes| ==> ServiceKey(classes[i].name) in table
    ensures forall k :: k in table ==> exists i :: 0 <= i < |classes| && table[k] == classes[i]
  {
    table := map[];
    var i := 0;
    while i < |classes|
      invariant 0 <= i <= |classes|
      invariant table == ClassTable(classes[..i])
    {
      assert classes[..i + 1][..i] == classes[..i];
      table := table[ServiceKey(classes[i].name) := classes[i]];
      i := i + 1;
    }
    assert classes[..i] == classes;
    forall j | 0 <= j < |classes|
      ensures ServiceKey(classes[j].name) in table
    {
      ClassTableLastWins(classes, ServiceKey(classes[j].name));
    }
    forall k | k in table
      ensures exists i :: 0 <= i < |classes| && table[k] == classes[i]
    {
      ClassTableLastWins(classes, k);
    }
  }
}
