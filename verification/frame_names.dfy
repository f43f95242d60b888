/** Frame file names (`f"{seq:06d}.jpg"`) and the image-sequence input that the
    daily encode reads back with pattern `%06d.jpg` and `-start_number 1`. */
module FrameNames {
  import opened Decimal
  import opened Optional

  /** Minimum width of the zero-padded frame number. */
  const NameWidth: nat := 6
  const Extension: string := ".jpg"
  /** Number of the first frame of a day, and the encoder's `-start_number`. */
  const FirstFrame: nat := 1

  /** The file name a frame with sequence number `n` is written under. */
  function FrameName(n: nat): (name: string)
    ensures |name| >= NameWidth + |Extension|
    ensures name[|name| - |Extension|..] == Extension
  {
    PadDecimal(n, NameWidth) + Extension
  }

  /** The inverse of `FrameName`: accepts exactly the names `FrameName` produces
      (six digits, or more digits without a leading zero, then `.jpg`). */
  function ParseFrameName(name: string): Option<nat> {
    if |name| >= NameWidth + |Extension| && name[|name| - |Extension|..] == Extension
       && AllDigits(name[..|name| - |Extension|])
       && (|name| == NameWidth + |Extension| || name[0] != '0')
    then Some(Value(name[..|name| - |Extension|]))
    else None
  }

  lemma FrameNameDigits(n: nat)
    ensures FrameName(n)[..|FrameName(n)| - |Extension|] == PadDecimal(n, NameWidth)
  {
  }

  /** Every frame name decodes back to its sequence number. */
  lemma FrameNameRoundTrip(n: nat)
    ensures ParseFrameName(FrameName(n)) == Some(n)
  {
    var digits := PadDecimal(n, NameWidth);
    FrameNameDigits(n);
    PadDecimalValue(n, NameWidth);
    NumDigitsBound(n);
    if |digits| > NameWidth {
      var k := NumDigits(n);
      assert |digits| == k;
      assert n >= 10;
      ValueBound(digits);
      if digits[0] == '0' {
        LeadingZeroBound(digits);
        assert false;
      }
    }
  }

  lemma LeadingZeroBound(s: string)
    requires AllDigits(s) && |s| > 0 && s[0] == '0'
    ensures Value(s) < Pow10(|s| - 1)
  {
    DigitsOfValue(s);
    ValueBound(s[1..]);
    ValueSkipsLeadingZero(s);
  }

  lemma {:induction false} ValueSkipsLeadingZero(s: string)
    requires AllDigits(s) && |s| > 0 && s[0] == '0'
    ensures Value(s) == Value(s[1..])
  {
    if |s| > 1 {
      ValueSkipsLeadingZero(s[..|s| - 1]);
      assert s[..|s| - 1][1..] == s[1..][..|s[1..]| - 1];
    }
  }

  /** Every name the parser accepts is the name of the number it yields. */
  lemma ParseFrameNameSound(name: string)
    ensures ParseFrameName(name).Some? ==> FrameName(ParseFrameName(name).value) == name
  {
    if ParseFrameName(name).Some? {
      var digits := name[..|name| - |Extension|];
      var n := Value(digits);
      DigitsOfValue(digits);
      ValueBound(digits);
      NumDigitsBound(n);
      if |digits| == NameWidth {
        NumDigitsAtMost(n, NameWidth);
      } else {
        NumDigitsExact(n, |digits|);
      }
      assert PadDecimal(n, NameWidth) == digits;
      assert name == digits + Extension;
    }
  }

  lemma FrameNameInjective(n: nat, m: nat)
    ensures FrameName(n) == FrameName(m) <==> n == m
  {
    FrameNameRoundTrip(n);
    FrameNameRoundTrip(m);
  }

  /** Below one million a frame name is exactly six digits and `.jpg`. */
  lemma FrameNameShape(n: nat)
    requires n < Pow10(NameWidth)
    ensures FrameName(n) == Digits(n, NameWidth) + Extension
    ensures |FrameName(n)| == 10
  {
    NumDigitsAtMost(n, NameWidth);
  }

  /** Below one million, lexical order of frame names is capture order. */
  lemma FrameNameOrder(n: nat, m: nat)
    requires n < Pow10(NameWidth) && m < Pow10(NameWidth)
    ensures LexLess(FrameName(n), FrameName(m)) <==> n < m
  {
    FrameNameShape(n);
    FrameNameShape(m);
    LexConcat(Digits(n, NameWidth), Extension, Digits(m, NameWidth), Extension);
    DigitsOrder(n, m, NameWidth);
    LexIrreflexive(Extension);
  }

  // ---------------------------------------------------------------------------
  // Contiguous numbering

  /** The names of frames `1..k`. */
  function NamesUpTo(k: nat): set<string> {
    if k == 0 then {} else NamesUpTo(k - 1) + {FrameName(k)}
  }

  lemma {:induction false} NamesUpToMembers(k: nat, name: string)
    ensures name in NamesUpTo(k) <==> exists n :: FirstFrame <= n <= k && FrameName(n) == name
  {
    if k > 0 {
      NamesUpToMembers(k - 1, name);
    }
  }

  lemma NamesUpToContains(k: nat, n: nat)
    ensures FrameName(n) in NamesUpTo(k) <==> FirstFrame <= n <= k
  {
    NamesUpToMembers(k, FrameName(n));
    if FrameName(n) in NamesUpTo(k) {
      var i :| FirstFrame <= i <= k && FrameName(i) == FrameName(n);
      FrameNameInjective(i, n);
    }
  }

  /** `k` contiguous frames are `k` distinct files. */
  lemma {:induction false} NamesUpToSize(k: nat)
    ensures |NamesUpTo(k)| == k
  {
    if k > 0 {
      NamesUpToSize(k - 1);
      NamesUpToContains(k - 1, k);
    }
  }

  /** A directory's frames are numbered contiguously from the first frame. */
  predicate Contiguous(files: set<string>) {
    files == NamesUpTo(|files|)
  }

  lemma ContiguousNamesUpTo(k: nat)
    ensures Contiguous(NamesUpTo(k))
  {
    NamesUpToSize(k);
  }

  lemma SubsetOfSameSize<T>(a: set<T>, b: set<T>)
    requires a <= b && |a| == |b|
    ensures a == b
  {
    assert |b - a| == |b| - |a|;
  }

  /** The number of frames the daily encode reads from a directory: it starts at
      frame 1 and stops at the first number whose file is missing. */
  method EncodedFrameCount(files: set<string>) returns (count: nat)
    ensures NamesUpTo(count) <= files && FrameName(count + 1) !in files
    ensures count <= |files|
    ensures count == |files| <==> Contiguous(files)
  {
    count := 0;
    while FrameName(count + 1) in files
      invariant NamesUpTo(count) <= files
      decreases |files| - count
    {
      NamesUpToSize(count + 1);
      assert NamesUpTo(count + 1) <= files;
      assert |NamesUpTo(count + 1)| <= |files| by {
        SubsetSize(NamesUpTo(count + 1), files);
      }
      count := count + 1;
    }
    NamesUpToSize(count);
    SubsetSize(NamesUpTo(count), files);
    if count == |files| {
      SubsetOfSameSize(NamesUpTo(count), files);
    }
    if Contiguous(files) && count < |files| {
      NamesUpToContains(|files|, count + 1);
    }
  }

  lemma SubsetSize<T>(a: set<T>, b: set<T>)
    requires a <= b
    ensures |a| <= |b|
  {
    assert b == a + (b - a);
  }
}
