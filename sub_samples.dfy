/** The subsample loop of `decrypt`: each subsample is copied into the legacy
    representation and its clear and encrypted byte counts are added, with
    overflow detection, into the `size_t` total the engine will write. */
module SubSamples {
  import opened DrmTypes

  /** `__builtin_add_overflow` into a `size_t`: whether the exact sum does not
      fit, and the value stored (the sum reduced modulo 2^64). The flag is set
      exactly when the sum exceeds SIZE_MAX; the stored value is then the sum
      less 2^64, and otherwise the sum itself. */
  function AddOverflow(a: SizeT, b: UInt64): (r: (bool, SizeT))
    ensures r.0 <==> a + b > SIZE_MAX
    ensures !r.0 ==> r.1 == a + b
    ensures r.0 ==> r.1 == a + b - SIZE_T_MODULUS
  {
    (a + b > SIZE_MAX, (a + b) % SIZE_T_MODULUS)
  }

  /** Which of the two additions of a subsample overflowed first. */
  datatype OverflowKind = ClearOverflow | EncryptedOverflow

  /** Outcome of the accumulation: the total, or the addition that overflowed. */
  datatype Accumulation = Total(destSize: SizeT) | Overflow(kind: OverflowKind)

  /** Mathematical (unbounded) number of bytes described by the subsamples. */
  function Sum(s: seq<SubSample>): nat
  {
    if s == [] then 0
    else s[0].numBytesOfClearData + s[0].numBytesOfEncryptedData + Sum(s[1..])
  }

  /** The checked accumulation, continuing from `destSize` over the subsamples
      still to visit: clear bytes first, then encrypted bytes, stopping at the
      first addition that overflows. */
  function AccumulateFrom(destSize: SizeT, s: seq<SubSample>): Accumulation
    decreases |s|
  {
    if s == [] then Total(destSize)
    else
      var (clearOverflow, afterClear) := AddOverflow(destSize, s[0].numBytesOfClearData);
      if clearOverflow then Overflow(ClearOverflow)
      else
        var (encryptedOverflow, afterEncrypted) := AddOverflow(afterClear, s[0].numBytesOfEncryptedData);
        if encryptedOverflow then Overflow(EncryptedOverflow)
        else AccumulateFrom(afterEncrypted, s[1..])
  }

  /** The accumulation as `decrypt` runs it, from `destSize = 0`. */
  function Accumulate(s: seq<SubSample>): Accumulation
  {
    AccumulateFrom(0, s)
  }

  /** Checked accumulation from any starting value succeeds exactly when the
      exact total fits in a `size_t`, and then yields that exact total. */
  lemma {:induction false} AccumulateFromIsCheckedSum(destSize: SizeT, s: seq<SubSample>)
    ensures AccumulateFrom(destSize, s).Total? <==> destSize + Sum(s) <= SIZE_MAX
    ensures AccumulateFrom(destSize, s).Total? ==> AccumulateFrom(destSize, s).destSize == destSize + Sum(s)
    decreases |s|
  {
    if s != [] {
      var clear := s[0].numBytesOfClearData;
      var encrypted := s[0].numBytesOfEncryptedData;
      if destSize + clear + encrypted <= SIZE_MAX {
        AccumulateFromIsCheckedSum(destSize + clear + encrypted, s[1..]);
      }
    }
  }

  /** The bytes of a non-empty prefix are those of its first subsample plus
      those of the rest of the prefix. */
  lemma SumPrefixStep(s: seq<SubSample>, i: nat)
    requires 0 < i <= |s|
    ensures Sum(s[..i]) == s[0].numBytesOfClearData + s[0].numBytesOfEncryptedData + Sum(s[1..][..i - 1])
  {
    assert s[..i][1..] == s[1..][..i - 1];
  }

  /** Subsample `i` is where the first overflow happens, on its clear byte
      count: the bytes before it still fit after `destSize`, and adding its
      clear bytes does not. */
  predicate ClearOverflowAt(destSize: int, s: seq<SubSample>, i: int)
  {
    && 0 <= i < |s|
    && destSize + Sum(s[..i]) <= SIZE_MAX < destSize + Sum(s[..i]) + s[i].numBytesOfClearData
  }

  /** Moving past the first subsample shifts the overflow position by one. */
  lemma ClearOverflowAtShift(destSize: int, s: seq<SubSample>, i: int)
    requires 0 < i <= |s|
    ensures ClearOverflowAt(destSize, s, i) <==>
      ClearOverflowAt(destSize + s[0].numBytesOfClearData + s[0].numBytesOfEncryptedData, s[1..], i - 1)
  {
    SumPrefixStep(s, i);
  }

  /** Which overflow is reported: the clear one exactly when the first
      addition that overflows is the clear byte count of some subsample. Any
      other overflow is reported as the encrypted one. */
  lemma {:induction false} AccumulateFromReportsClearOverflow(destSize: SizeT, s: seq<SubSample>)
    ensures AccumulateFrom(destSize, s) == Overflow(ClearOverflow) <==> exists i :: ClearOverflowAt(destSize, s, i)
    decreases |s|
  {
    if s != [] {
      var clear := s[0].numBytesOfClearData;
      var encrypted := s[0].numBytesOfEncryptedData;
      assert s[..0] == [];
      if destSize + clear > SIZE_MAX {
        assert ClearOverflowAt(destSize, s, 0);
      } else {
        var next := destSize + clear + encrypted;
        assert !ClearOverflowAt(destSize, s, 0);
        if next > SIZE_MAX {
          forall i | ClearOverflowAt(destSize, s, i)
            ensures false
          {
            SumPrefixStep(s, i);
          }
        } else {
          AccumulateFromReportsClearOverflow(next, s[1..]);
          if exists i :: ClearOverflowAt(destSize, s, i) {
            var i :| ClearOverflowAt(destSize, s, i);
            ClearOverflowAtShift(destSize, s, i);
          }
          if exists j :: ClearOverflowAt(next, s[1..], j) {
            var j :| ClearOverflowAt(next, s[1..], j);
            ClearOverflowAtShift(destSize, s, j + 1);
          }
        }
      }
    }
  }

  /** The accumulation in `decrypt` succeeds exactly when the sum of all clear
      and encrypted byte counts fits in a `size_t`; the total is then that sum.
      Since every partial sum is at most the total, "no partial sum exceeds
      SIZE_MAX" and "the total does not exceed SIZE_MAX" are the same condition. */
  lemma AccumulateIsCheckedSum(s: seq<SubSample>)
    ensures Accumulate(s).Total? <==> Sum(s) <= SIZE_MAX
    ensures Accumulate(s).Total? ==> Accumulate(s).destSize == Sum(s)
  {
    AccumulateFromIsCheckedSum(0, s);
  }

  /** The legacy form of one subsample. */
  function ToLegacy(s: SubSample): LegacySubSample
  {
    LegacySubSample(s.numBytesOfClearData, s.numBytesOfEncryptedData)
  }

  /** The legacy subsample array handed to the engine: same length, same order,
      same byte counts as the caller's subsamples. */
  function LegacySubSamplesOf(s: seq<SubSample>): (r: seq<LegacySubSample>)
    ensures |r| == |s|
    ensures forall i :: 0 <= i < |s| ==>
      r[i].mNumBytesOfClearData == s[i].numBytesOfClearData &&
      r[i].mNumBytesOfEncryptedData == s[i].numBytesOfEncryptedData
  {
    seq(|s|, i requires 0 <= i < |s| => ToLegacy(s[i]))
  }

  /** The loop of `decrypt`: fills a fresh array with the legacy subsamples
      while accumulating the total, and stops at the first overflow. On
      success the array holds every subsample converted; either way the
      outcome is the checked accumulation. */
  method ConvertSubSamples(subSamples: seq<SubSample>)
    returns (legacySubSamples: array<LegacySubSample>, accumulation: Accumulation)
    ensures legacySubSamples.Length == |subSamples|
    ensures accumulation == Accumulate(subSamples)
    ensures accumulation.Total? ==> legacySubSamples[..] == LegacySubSamplesOf(subSamples)
  {
    legacySubSamples := new LegacySubSample[|subSamples|];
    var destSize: SizeT := 0;
    var i := 0;
    while i < |subSamples|
      invariant 0 <= i <= |subSamples|
      invariant AccumulateFrom(destSize, subSamples[i..]) == Accumulate(subSamples)
      invariant forall k :: 0 <= k < i ==> legacySubSamples[k] == ToLegacy(subSamples[k])
    {
      var numBytesOfClearData := subSamples[i].numBytesOfClearData;
      var numBytesOfEncryptedData := subSamples[i].numBytesOfEncryptedData;
      legacySubSamples[i] := LegacySubSample(numBytesOfClearData, numBytesOfEncryptedData);
      var afterClear := AddOverflow(destSize, numBytesOfClearData);
      if afterClear.0 {
        return legacySubSamples, Overflow(ClearOverflow);
      }
      destSize := afterClear.1;
      var afterEncrypted := AddOverflow(destSize, numBytesOfEncryptedData);
      if afterEncrypted.0 {
        return legacySubSamples, Overflow(EncryptedOverflow);
      }
      destSize := afterEncrypted.1;
      assert subSamples[i..][1..] == subSamples[i + 1..];
      i := i + 1;
    }
    accumulation := Total(destSize);
  }
}
