/** Small definitions shared by the other modules. */
module Common {
  datatype Option<+T> = None | Some(value: T)

  /** How many commands the queue to the hub holds. */
  const QUEUE_CAPACITY: nat := 256

  /** Which characters count as white space. */
  type Space = char -> bool

  function Min(a: nat, b: nat): nat {
    if a <= b then a else b
  }

  /** How many white-space characters s starts with. */
  function Leading(space: Space, s: string): (n: nat)
    ensures n <= |s| && (forall i | 0 <= i < n :: space(s[i])) && (n < |s| ==> !space(s[n]))
  {
    if s == "" || !space(s[0]) then 0 else 1 + Leading(space, s[1..])
  }

  /** The length of s without the white space it ends with. */
  function Body(space: Space, s: string): (n: nat)
    ensures n <= |s| && (forall i | n <= i < |s| :: space(s[i])) && (n > 0 ==> !space(s[n - 1]))
  {
    if s == "" || !space(s[|s| - 1]) then |s| else Body(space, s[..|s| - 1])
  }

  function TrimStart(space: Space, s: string): string {
    s[Leading(space, s)..]
  }

  function Trim(space: Space, s: string): string {
    var t := TrimStart(space, s);
    t[..Body(space, t)]
  }

  lemma TrimKeeps(space: Space, s: string)
    requires s != "" && !space(s[0]) && !space(s[|s| - 1])
    ensures Trim(space, s) == s
  {
    assert Leading(space, s) == 0 && s[0..] == s;
  }

  predicate AllSpace(space: Space, s: string) {
    forall i | 0 <= i < |s| :: space(s[i])
  }

  predicate Solid(space: Space, s: string) {
    s != "" && !space(s[0]) && !space(s[|s| - 1])
  }

  /** Exactly the white space around a text is taken off. */
  lemma TrimStrips(space: Space, a: string, m: string, b: string)
    requires AllSpace(space, a) && AllSpace(space, b) && Solid(space, m)
    ensures TrimStart(space, a + m + b) == m + b
    ensures Trim(space, a + m + b) == m
  {
    var s := a + m + b;
    assert s[|a|] == m[0];
    assert Leading(space, s) == |a|;
    assert s[|a|..] == m + b;
    var t := m + b;
    assert t[|m| - 1] == m[|m| - 1];
    assert Body(space, t) == |m|;
  }

  lemma TrimAllSpace(space: Space, a: string)
    requires AllSpace(space, a)
    ensures TrimStart(space, a) == "" && Trim(space, a) == ""
  {
  }
}
