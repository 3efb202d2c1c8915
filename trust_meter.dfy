/**
 * The trust-meter image shown for a seller's trust rating: the level's decimal digits in a
 * fixed file name, zero-padded to three digits for the levels 0, 50 and 80 only.
 */
module TrustMeter {
  import opened Values

  const ImagePrefix := "/images/shared/review_ratings/trust-o-meter_"
  const ImageSuffix := ".PNG"

  function DigitChar(d: nat): (c: char)
    requires d < 10
    ensures '0' <= c <= '9'
  {
    ('0' as int + d) as char
  }

  function DigitValue(c: char): (r: Option<nat>)
    ensures r.Some? ==> r.value < 10
  {
    if '0' <= c <= '9' then Some(c as int - '0' as int) else None
  }

  /** The decimal form of a natural number, without leading zeros. */
  function NatToString(n: nat): (s: string)
    ensures |s| >= 1
    decreases n
  {
    if n < 10 then [DigitChar(n)] else NatToString(n / 10) + [DigitChar(n % 10)]
  }

  /** `${i}` for an integer `i`. */
  function IntToString(i: int): (s: string)
    ensures |s| >= 1
  {
    if i < 0 then "-" + NatToString(-i) else NatToString(i)
  }

  /** The image chosen in the trust meter's effect for `ratings`. */
  function RatingImage(ratings: int): (path: string)
  {
    if ratings == 0 then ImagePrefix + "0" + IntToString(ratings) + "0" + ImageSuffix
    else if ratings == 50 || ratings == 80 then ImagePrefix + "0" + IntToString(ratings) + ImageSuffix
    else ImagePrefix + IntToString(ratings) + ImageSuffix
  }

  /** Reads back a string of decimal digits. */
  function ParseNat(s: string): (r: Option<nat>)
    decreases |s|
  {
    if s == [] then None
    else
      match DigitValue(s[|s| - 1])
      case None => None
      case Some(d) =>
        if |s| == 1 then Some(d)
        else
          match ParseNat(s[..|s| - 1])
          case None => None
          case Some(v) => Some(v * 10 + d)
  }

  function ParseInt(s: string): (r: Option<int>)
  {
    if |s| > 0 && s[0] == '-' then
      match ParseNat(s[1..])
      case None => None
      case Some(v) => Some(-(v as int))
    else
      match ParseNat(s)
      case None => None
      case Some(v) => Some(v as int)
  }

  /** The rating an image path stands for: the inverse of `RatingImage`. */
  function ParseRatingImage(path: string): (r: Option<int>)
  {
    if |path| < |ImagePrefix| + |ImageSuffix| then None
    else if path[..|ImagePrefix|] != ImagePrefix || path[|path| - |ImageSuffix|..] != ImageSuffix then None
    else
      var level := path[|ImagePrefix|..|path| - |ImageSuffix|];
      if level == "000" then Some(0)
      else if level == "050" then Some(50)
      else if level == "080" then Some(80)
      else ParseInt(level)
  }

  lemma {:induction false} ParseNatToString(n: nat)
    ensures ParseNat(NatToString(n)) == Some(n)
    decreases n
  {
    var s := NatToString(n);
    if n < 10 {
      assert DigitValue(DigitChar(n)) == Some(n);
    } else {
      ParseNatToString(n / 10);
      assert s[..|s| - 1] == NatToString(n / 10);
      assert DigitValue(s[|s| - 1]) == Some(n % 10);
    }
  }

  /** Decimal forms start with a digit, and with '0' only for zero itself. */
  lemma {:induction false} NatToStringLead(n: nat)
    ensures '0' <= NatToString(n)[0] <= '9'
    ensures NatToString(n)[0] == '0' ==> n == 0 && NatToString(n) == "0"
    decreases n
  {
    if n >= 10 {
      NatToStringLead(n / 10);
      assert NatToString(n)[0] == NatToString(n / 10)[0];
    }
  }

  lemma ParseIntToString(i: int)
    ensures ParseInt(IntToString(i)) == Some(i)
  {
    var s := IntToString(i);
    if i < 0 {
      ParseNatToString(-i);
      assert s == "-" + NatToString(-i);
      assert s[0] == '-' && s[1..] == NatToString(-i);
    } else {
      NatToStringLead(i);
      ParseNatToString(i);
      assert s == NatToString(i) && s[0] != '-';
    }
  }

  lemma Framed(level: string)
    ensures var path := ImagePrefix + level + ImageSuffix;
            && |path| >= |ImagePrefix| + |ImageSuffix|
            && path[..|ImagePrefix|] == ImagePrefix
            && path[|path| - |ImageSuffix|..] == ImageSuffix
            && path[|ImagePrefix|..|path| - |ImageSuffix|] == level
  {
  }

  /** Every image path has the fixed directory prefix and the `.PNG` suffix. */
  lemma RatingImageFrame(ratings: int)
    ensures var path := RatingImage(ratings);
            |path| > |ImagePrefix| + |ImageSuffix| &&
            path[..|ImagePrefix|] == ImagePrefix && path[|path| - |ImageSuffix|..] == ImageSuffix
  {
    var level :=
      if ratings == 0 then "0" + IntToString(ratings) + "0"
      else if ratings == 50 || ratings == 80 then "0" + IntToString(ratings)
      else IntToString(ratings);
    assert RatingImage(ratings) == ImagePrefix + level + ImageSuffix;
    Framed(level);
  }

  /** The three padded levels: 0, 50 and 80 appear as "000", "050" and "080". */
  lemma PaddedLevel(ratings: int)
    requires ratings == 0 || ratings == 50 || ratings == 80
    ensures RatingImage(ratings) ==
              ImagePrefix + (if ratings == 0 then "000" else if ratings == 50 then "050" else "080") + ImageSuffix
  {
    if ratings == 0 {
      assert IntToString(0) == "0";
    } else if ratings == 50 {
      assert NatToString(5) == "5";
      assert IntToString(50) == "50";
    } else {
      assert NatToString(8) == "8";
      assert IntToString(80) == "80";
    }
  }

  /** Reading a framed path: the three padded levels, or else the level as a decimal integer. */
  lemma ParseFramed(level: string)
    ensures ParseRatingImage(ImagePrefix + level + ImageSuffix) ==
              if level == "000" then Some(0)
              else if level == "050" then Some(50)
              else if level == "080" then Some(80)
              else ParseInt(level)
  {
    Framed(level);
  }

  /** The unpadded level of any other rating starts with '-' or a non-zero digit. */
  lemma UnpaddedLead(ratings: int)
    requires ratings != 0
    ensures IntToString(ratings)[0] != '0'
  {
    if ratings > 0 {
      NatToStringLead(ratings);
    }
  }

  /** The image path determines the rating: reading it back gives the rating it was made from. */
  lemma RatingImageRoundTrip(ratings: int)
    ensures ParseRatingImage(RatingImage(ratings)) == Some(ratings)
  {
    if ratings == 0 || ratings == 50 || ratings == 80 {
      PaddedLevel(ratings);
      ParseFramed(if ratings == 0 then "000" else if ratings == 50 then "050" else "080");
    } else {
      var level := IntToString(ratings);
      assert RatingImage(ratings) == ImagePrefix + level + ImageSuffix;
      ParseFramed(level);
      UnpaddedLead(ratings);
      assert level != "000" && level != "050" && level != "080" by {
        assert "000"[0] == '0' && "050"[0] == '0' && "080"[0] == '0';
      }
      ParseIntToString(ratings);
    }
  }

  /** Different ratings never share an image. */
  lemma RatingImageInjective(a: int, b: int)
    requires RatingImage(a) == RatingImage(b)
    ensures a == b
  {
    RatingImageRoundTrip(a);
    RatingImageRoundTrip(b);
  }

  /** The zero-padded special cases, and one ordinary level. */
  lemma RatingImageExamples()
    ensures RatingImage(0) == "/images/shared/review_ratings/trust-o-meter_000.PNG"
    ensures RatingImage(50) == "/images/shared/review_ratings/trust-o-meter_050.PNG"
    ensures RatingImage(80) == "/images/shared/review_ratings/trust-o-meter_080.PNG"
    ensures RatingImage(100) == "/images/shared/review_ratings/trust-o-meter_100.PNG"
  {
    PaddedLevel(0);
    PaddedLevel(50);
    PaddedLevel(80);
    assert NatToString(1) == "1" && NatToString(10) == "10";
    assert IntToString(100) == "100";
  }

  /** Any other rating appears as its own decimal digits, unpadded. */
  lemma UnpaddedOtherwise(ratings: int)
    requires ratings != 0 && ratings != 50 && ratings != 80
    ensures RatingImage(ratings) == ImagePrefix + IntToString(ratings) + ImageSuffix
    ensures ratings > 0 ==> RatingImage(ratings)[|ImagePrefix|] != '0'
  {
    if ratings > 0 {
      NatToStringLead(ratings);
    }
  }
}
