/** Powers of two. */
module Powers {
  function TwoTo(n: nat): nat { if n == 0 then 1 else 2 * TwoTo(n - 1) }

  lemma {:induction false} TwoToSum(a: nat, b: nat)
    ensures TwoTo(a + b) == TwoTo(a) * TwoTo(b)
  {
    if b > 0 {
      TwoToSum(a, b - 1);
      assert TwoTo(a + b) == 2 * TwoTo(a + (b - 1));
    }
  }
}
