/** The library's own unit tests, stated as lemmas about the model. */
module RgbExamples {
  import opened Rgb

  lemma AddExample()
    ensures SaturatingAdd(New(255, 0, 200), New(0, 255, 200)) == New(255, 255, 255)
  {
  }

  lemma SubExample()
    ensures SaturatingSub(New(255, 0, 200), New(0, 255, 200)) == New(255, 0, 0)
  {
  }

  /** Multiply before dividing: 3 * 1500 / 1000 is 4, not 3 * (1500 / 1000) = 3. */
  lemma MulDivExample()
    ensures ProductsFitU32(New(1, 2, 3), 1500)
    ensures SaturatingScalarMulDiv(New(1, 2, 3), 1500, 1000) == New(1, 3, 4)
    ensures SaturatingScalarMulDiv(New(1, 2, 3), 1500, 1) == New(255, 255, 255)
  {
  }

  lemma MulExample()
    ensures ProductsFitU32(New(20, 40, 60), 10000)
    ensures SaturatingScalarMul(New(20, 40, 60), 2) == New(40, 80, 120)
    ensures SaturatingScalarMul(New(20, 40, 60), 10000) == New(255, 255, 255)
  {
  }

  lemma DivExample()
    ensures ScalarDiv(New(20, 40, 60), 2) == New(10, 20, 30)
    ensures ScalarDiv(New(255, 255, 255), 256) == New(0, 0, 0)
  {
  }

  lemma NormalisedMulExample()
    ensures NormalisedMul(New(255, 255, 255), New(1, 2, 3)) == New(1, 2, 3)
    ensures NormalisedMul(New(255, 127, 0), New(10, 20, 30)) == New(10, 9, 0)
  {
  }

  lemma GreyExample()
    ensures NewGrey(37) == New(37, 37, 37)
  {
  }

  lemma FloorExample()
    ensures Floor(New(100, 5, 0), 10) == New(100, 10, 10)
  {
  }

  lemma CeilExample()
    ensures Ceil(New(255, 250, 20), 200) == New(200, 200, 20)
  {
  }

  lemma NormalisedScalarMulExample()
    ensures NormalisedScalarMul(New(255, 128, 0), 128) == New(128, 64, 0)
  {
  }
}
