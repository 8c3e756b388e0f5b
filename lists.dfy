/** Facts about the first occurrence of a value in a Python list (list.index). */
module Lists {

  /** Position of the first occurrence of x in s. */
  function FirstIndex(s: seq<string>, x: string): (i: nat)
    requires x in s
    ensures i < |s| && s[i] == x && x !in s[..i]
  {
    if s[0] == x then 0 else 1 + FirstIndex(s[1..], x)
  }

  lemma {:induction false} FirstIndexAppend(s: seq<string>, y: string)
    ensures forall x :: x in s ==> FirstIndex(s + [y], x) == FirstIndex(s, x)
    ensures y !in s ==> FirstIndex(s + [y], y) == |s|
  {
    forall x | x in s ensures FirstIndex(s + [y], x) == FirstIndex(s, x) {
      FirstIndexUnique(s + [y], x, FirstIndex(s, x));
    }
    if y !in s {
      FirstIndexUnique(s + [y], y, |s|);
    }
  }

  lemma FirstIndexUnique(s: seq<string>, x: string, i: nat)
    requires i < |s| && s[i] == x && x !in s[..i]
    ensures FirstIndex(s, x) == i
  {
  }

}
