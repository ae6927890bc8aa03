/** Small vocabulary shared by the models. */
module Common {

  datatype Option<+T> = None | Some(value: T)

  /** How an awaited step ends: it returns, it throws, or the process dies inside it. */
  datatype Status = Done | Threw | Crashed

  /** The last element of a non-empty sequence. */
  function Last<T>(s: seq<T>): T
    requires s != []
  {
    s[|s| - 1]
  }

  /** A separator that occurs in neither head tells head and tail apart. */
  lemma SplitAt(separator: char, a: string, x: string, b: string, y: string)
    requires separator !in a && separator !in b
    requires a + [separator] + x == b + [separator] + y
    ensures a == b && x == y
  {
    var text := a + [separator] + x;
    assert forall k | 0 <= k < |a| :: text[k] == a[k] && a[k] in a;
    assert forall k | 0 <= k < |b| :: text[k] == b[k] && b[k] in b;
    assert text[|a|] == separator && text[|b|] == separator;
    assert a == text[..|a|] && b == text[..|b|];
    assert x == text[|a| + 1..] && y == text[|b| + 1..];
  }
}
