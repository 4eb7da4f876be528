/**
 * The name of one captured camera image: the frame number formatted with
 * `String(format: "%04d", num)` followed by ".jpg"
 * (FaceDataRecorder/ViewController.swift:177).
 */
module FileNames {

  predicate IsDigit(c: char) { '0' <= c <= '9' }

  function DigitChar(d: nat): (c: char)
    requires d < 10
    ensures IsDigit(c)
  {
    (('0' as int) + d) as char
  }

  function DigitValue(c: char): (d: nat)
    requires IsDigit(c)
    ensures d < 10
  {
    (c as int) - ('0' as int)
  }

  /** The decimal numeral of `n` without leading zeros ("0" for zero), as `%d` prints it. */
  function Decimal(n: nat): (s: string)
    ensures 1 <= |s|
    ensures forall i :: 0 <= i < |s| ==> IsDigit(s[i])
  {
    if n < 10 then [DigitChar(n)] else Decimal(n / 10) + [DigitChar(n % 10)]
  }

  function Zeros(k: nat): (s: string)
    ensures |s| == k && forall i :: 0 <= i < k ==> s[i] == '0'
  {
    if k == 0 then [] else Zeros(k - 1) + ['0']
  }

  /** `%04d`: the numeral, padded on the left with '0' to a width of at least four. */
  function Pad4(n: nat): (s: string)
  {
    var d := Decimal(n);
    if |d| < 4 then Zeros(4 - |d|) + d else d
  }

  const Extension: string := ".jpg"

  /** The file name under which the image of frame `num` is written. */
  function ImageName(num: nat): (name: string)
  {
    Pad4(num) + Extension
  }

  /** Reads a string of decimal digits back as a number. */
  function ValueOf(s: string): nat
    requires forall i :: 0 <= i < |s| ==> IsDigit(s[i])
  {
    if s == [] then 0 else 10 * ValueOf(s[..|s| - 1]) + DigitValue(s[|s| - 1])
  }

  function Pow10(k: nat): (p: nat)
    ensures p >= 1
  {
    if k == 0 then 1 else 10 * Pow10(k - 1)
  }

  lemma {:induction false} DecimalReadsBack(n: nat)
    ensures ValueOf(Decimal(n)) == n
  {
    var d := Decimal(n);
    if n >= 10 {
      DecimalReadsBack(n / 10);
      assert d[..|d| - 1] == Decimal(n / 10);
    }
  }

  lemma {:induction false} LeadingZerosReadBack(k: nat, s: string)
    requires forall i :: 0 <= i < |s| ==> IsDigit(s[i])
    ensures ValueOf(Zeros(k) + s) == ValueOf(s)
  {
    if s == [] {
      assert Zeros(k) + s == Zeros(k);
      if k > 0 {
        assert Zeros(k)[..k - 1] == Zeros(k - 1);
        LeadingZerosReadBack(k - 1, []);
        assert Zeros(k - 1) + [] == Zeros(k - 1);
      }
    } else {
      var t := Zeros(k) + s;
      assert t[..|t| - 1] == Zeros(k) + s[..|s| - 1];
      LeadingZerosReadBack(k, s[..|s| - 1]);
    }
  }

  /** The numeral of `n` has at most `k` digits exactly when `n < 10^k`. */
  lemma {:induction false} DecimalLength(n: nat, k: nat)
    requires k >= 1
    ensures |Decimal(n)| <= k <==> n < Pow10(k)
  {
    if n >= 10 {
      if k == 1 {
        assert |Decimal(n)| == |Decimal(n / 10)| + 1;
      } else {
        DecimalLength(n / 10, k - 1);
      }
    }
  }

  /**
   * The shape of an image name: at least four decimal digits that read back as
   * `num`, exactly four when `num < 10000`, then ".jpg". A numeral of five or
   * more digits is written as it is, without any padding.
   */
  lemma ImageNameShape(num: nat)
    ensures var name := ImageName(num);
      && |name| >= 8
      && name[|name| - 4..] == ".jpg"
      && (forall i :: 0 <= i < |name| - 4 ==> IsDigit(name[i]))
      && ValueOf(name[..|name| - 4]) == num
      && (|name| == 8 <==> num < 10000)
      && (num >= 10000 ==> name[..|name| - 4] == Decimal(num))
  {
    var name := ImageName(num);
    var p := Pad4(num);
    assert name[..|name| - 4] == p;
    assert name[|name| - 4..] == Extension;
    DecimalReadsBack(num);
    DecimalLength(num, 4);
    var d := Decimal(num);
    if |d| < 4 {
      LeadingZerosReadBack(4 - |d|, d);
    }
  }

  /** Frame 7 is written as "0007.jpg"; frame 12345 keeps all five digits. */
  lemma ImageNameExamples()
    ensures ImageName(7) == "0007.jpg"
    ensures ImageName(12345) == "12345.jpg"
  {
  }

  /** Frame numbers and image names correspond one to one: no two frames share a file. */
  lemma ImageNameInjective(a: nat, b: nat)
    requires ImageName(a) == ImageName(b)
    ensures a == b
  {
    ImageNameShape(a);
    ImageNameShape(b);
  }

  /** A set of frame numbers names as many image files as it has members. */
  lemma {:induction false} ImageNamesCount(frames: set<nat>)
    ensures |set k | k in frames :: ImageName(k)| == |frames|
    decreases frames
  {
    if frames != {} {
      var x :| x in frames;
      var rest := frames - {x};
      ImageNamesCount(rest);
      var names := set k | k in frames :: ImageName(k);
      var restNames := set k | k in rest :: ImageName(k);
      assert names == restNames + {ImageName(x)};
      assert ImageName(x) !in restNames by {
        if ImageName(x) in restNames {
          var k :| k in rest && ImageName(k) == ImageName(x);
          ImageNameInjective(k, x);
        }
      }
    }
  }
}
