/**
 * Normalisation of a prefecture id before it is looked up in the latitude and
 * longitude reference file, whose codes for prefectures 1 to 9 carry no
 * leading zero. The same function serves the origin and the destination.
 */
module PrefectureCode {

  /** The nine ids the estimator compares against before stripping a character. */
  const ZeroPaddedIds: set<string> := {"01", "02", "03", "04", "05", "06", "07", "08", "09"}

  /** A two-character id made of a '0' followed by a non-zero digit. */
  predicate IsZeroPaddedDigit(id: string)
  {
    |id| == 2 && id[0] == '0' && '1' <= id[1] <= '9'
  }

  lemma ZeroPaddedIdsAreZeroPaddedDigits(id: string)
    ensures id in ZeroPaddedIds <==> IsZeroPaddedDigit(id)
  {
    if IsZeroPaddedDigit(id) {
      assert id == ['0', id[1]];
      var d := id[1];
      assert d == '1' || d == '2' || d == '3' || d == '4' || d == '5' ||
             d == '6' || d == '7' || d == '8' || d == '9';
    }
  }

  /**
   * The id with the leading character dropped when it is one of "01".."09",
   * otherwise the id itself.
   */
  function NormalizePrefecture(id: string): (key: string)
    ensures key != id <==> IsZeroPaddedDigit(id)
    ensures IsZeroPaddedDigit(id) ==> key == [id[1]]
  {
    ZeroPaddedIdsAreZeroPaddedDigits(id);
    if id in ZeroPaddedIds then id[1..] else id
  }

  /** A normalised id is left alone by a second normalisation. */
  lemma NormalizeIdempotent(id: string)
    ensures NormalizePrefecture(NormalizePrefecture(id)) == NormalizePrefecture(id)
  {
  }

  /** Two ids that normalise alike are equal or are "0d" and "d" for one digit d. */
  lemma NormalizeCollisions(id: string, other: string)
    requires id != other && NormalizePrefecture(id) == NormalizePrefecture(other)
    ensures (IsZeroPaddedDigit(id) && other == [id[1]]) ||
            (IsZeroPaddedDigit(other) && id == [other[1]])
  {
  }

  lemma SampleNormalizations()
    ensures NormalizePrefecture("01") == "1" && NormalizePrefecture("09") == "9"
    ensures NormalizePrefecture("10") == "10" && NormalizePrefecture("47") == "47"
    ensures NormalizePrefecture("0") == "0" && NormalizePrefecture("00") == "00"
    ensures NormalizePrefecture("") == "" && NormalizePrefecture("1") == "1"
  {
  }
}
