/** Sums of an integer-valued measure over a sequence, used both for the
    entries of one history and for the accounts of one bank. */
module Sums {

  /** `f` summed over `s`, first element first. */
  function SumOver<T>(s: seq<T>, f: T -> int): int {
    if |s| == 0 then 0 else f(s[0]) + SumOver(s[1..], f)
  }

  /** Appending one element adds exactly that element's measure. */
  lemma {:induction false} SumOverAppend<T>(s: seq<T>, x: T, f: T -> int)
    ensures SumOver(s + [x], f) == SumOver(s, f) + f(x)
  {
    if |s| == 0 {
      assert s + [x] == [x];
    } else {
      assert (s + [x])[1..] == s[1..] + [x];
      SumOverAppend(s[1..], x, f);
    }
  }

  /** Replacing one element moves the sum by the difference in its measure. */
  lemma {:induction false} SumOverUpdate<T>(s: seq<T>, i: nat, x: T, f: T -> int)
    requires i < |s|
    ensures SumOver(s[i := x], f) == SumOver(s, f) - f(s[i]) + f(x)
  {
    if i == 0 {
      assert s[i := x][1..] == s[1..];
    } else {
      assert s[i := x][1..] == s[1..][i - 1 := x];
      SumOverUpdate(s[1..], i - 1, x, f);
    }
  }
}
