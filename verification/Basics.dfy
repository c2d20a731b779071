/** What all modules share. */
module Basics {
  datatype Option<+T> = None | Some(value: T)

  type Int64 = x: int | -0x8000_0000_0000_0000 <= x < 0x8000_0000_0000_0000

  lemma SubsetSize<T>(x: set<T>, y: set<T>)
    ensures x <= y ==> |x| <= |y|
    ensures x < y ==> |x| < |y|
  {
    if x <= y {
      assert y == x + (y - x);
      assert |y| == |x| + |y - x|;
    }
  }
}
