/** The `simple_hash` of the bot: a rolling hash of the Slack user id, sent to
    the completion API as the opaque `user` tag.

    `Array.from(input)` splits the string into code points, `charCodeAt(0)`
    takes the first UTF-16 code unit of each, and `reduce` folds
    `acc := ToInt32(31 * acc + code)` from 0 over them; the final accumulator
    is rendered with toString. */
module SimpleHash {
  import opened Int32
  import Decimal

  /** A UTF-16 code unit; a JavaScript string is a sequence of these. */
  type CodeUnit = u: int | 0 <= u < 0x1_0000

  predicate IsHighSurrogate(u: CodeUnit) {
    0xD800 <= u <= 0xDBFF
  }

  predicate IsLowSurrogate(u: CodeUnit) {
    0xDC00 <= u <= 0xDFFF
  }

  /** A surrogate pair starts at index i: Array.from keeps the two units as one element. */
  predicate PairAt(s: seq<CodeUnit>, i: int)
    requires 0 <= i < |s|
  {
    i + 1 < |s| && IsHighSurrogate(s[i]) && IsLowSurrogate(s[i + 1])
  }

  /** The codes the fold sees: one per element of Array.from(s), namely the
      element's first code unit. A surrogate pair contributes its high half only. */
  function LeadUnits(s: seq<CodeUnit>): (r: seq<CodeUnit>)
    ensures |r| <= |s|
    ensures |s| > 0 ==> |r| > 0 && r[0] == s[0]
    decreases |s|
  {
    if s == [] then []
    else if PairAt(s, 0) then [s[0]] + LeadUnits(s[2..])
    else [s[0]] + LeadUnits(s[1..])
  }

  /** The elements of Array.from(s): the string split into code points, each
      a surrogate pair or a single code unit. */
  function Segments(s: seq<CodeUnit>): (r: seq<seq<CodeUnit>>)
    ensures forall k :: 0 <= k < |r| ==> 1 <= |r[k]| <= 2
    decreases |s|
  {
    if s == [] then []
    else if PairAt(s, 0) then [s[..2]] + Segments(s[2..])
    else [s[..1]] + Segments(s[1..])
  }

  /** Concatenation of the segments, in order. */
  function Join(segments: seq<seq<CodeUnit>>): seq<CodeUnit>
    decreases |segments|
  {
    if segments == [] then [] else segments[0] + Join(segments[1..])
  }

  /** The split loses and reorders nothing, a two-unit segment is a surrogate
      pair, and the fold sees exactly the first unit of each segment. */
  lemma {:induction false} LeadUnitsAreSegmentHeads(s: seq<CodeUnit>)
    ensures Join(Segments(s)) == s
    ensures |LeadUnits(s)| == |Segments(s)|
    ensures forall k :: 0 <= k < |Segments(s)| ==> LeadUnits(s)[k] == Segments(s)[k][0]
    ensures forall k :: 0 <= k < |Segments(s)| && |Segments(s)[k]| == 2 ==>
              IsHighSurrogate(Segments(s)[k][0]) && IsLowSurrogate(Segments(s)[k][1])
    ensures forall k :: 0 <= k < |Segments(s)| - 1 && |Segments(s)[k]| == 1 ==>
              !(IsHighSurrogate(Segments(s)[k][0]) && IsLowSurrogate(Segments(s)[k + 1][0]))
    decreases |s|
  {
    if s != [] {
      var n := if PairAt(s, 0) then 2 else 1;
      LeadUnitsAreSegmentHeads(s[n..]);
      assert Segments(s) == [s[..n]] + Segments(s[n..]);
      assert LeadUnits(s) == [s[0]] + LeadUnits(s[n..]);
      assert Segments(s)[1..] == Segments(s[n..]);
      assert s == s[..n] + s[n..];
      if n == 1 && |s| > 1 {
        assert Segments(s[1..])[0][0] == s[1];
      }
    }
  }

  /** A string without surrogate pairs (every Slack user id, which is ASCII)
      is hashed unit by unit. */
  lemma {:induction false} LeadUnitsWithoutPairs(s: seq<CodeUnit>)
    requires forall i :: 0 <= i < |s| ==> !PairAt(s, i)
    ensures LeadUnits(s) == s
    decreases |s|
  {
    if s != [] {
      assert !PairAt(s, 0);
      forall i | 0 <= i < |s[1..]| ensures !PairAt(s[1..], i) {
        assert !PairAt(s, i + 1);
      }
      LeadUnitsWithoutPairs(s[1..]);
    }
  }

  /** One step of the reducer: 0 | (31 * hash + code). */
  function Step(acc: int, code: CodeUnit): (r: int)
    ensures InRange(r)
    ensures Congruent(r, 31 * acc + code)
  {
    ToInt32(31 * acc + code)
  }

  /** The reducer's argument 31 * acc + code is computed in IEEE-754 doubles;
      for an accumulator in the signed 32-bit range it stays within 2^53, where
      every integer is exact, so modelling it on unbounded integers is faithful. */
  lemma StepIsExactInDouble(acc: int, code: CodeUnit)
    requires InRange(acc)
    ensures -0x20_0000_0000_0000 <= 31 * acc + code <= 0x20_0000_0000_0000
  {
  }

  /** Array.prototype.reduce with an initial value: a left fold. */
  function Fold(acc: int, codes: seq<CodeUnit>): (r: int)
    ensures InRange(acc) || codes != [] ==> InRange(r)
    decreases |codes|
  {
    if codes == [] then acc else Fold(Step(acc, codes[0]), codes[1..])
  }

  /** The accumulator after the whole fold, from the initial value 0. */
  function HashAcc(codes: seq<CodeUnit>): int {
    Fold(0, codes)
  }

  /** simple_hash(input) as the decimal string the bot sends. */
  function Hash(input: seq<CodeUnit>): (r: string)
    ensures Decimal.IsIntLiteral(r)
  {
    Decimal.IntToString(HashAcc(LeadUnits(input)))
  }

  /** The accumulators the reduce passes through, one after each code. */
  function Accumulators(acc: int, codes: seq<CodeUnit>): (r: seq<int>)
    ensures |r| == |codes|
    decreases |codes|
  {
    if codes == [] then [] else [Step(acc, codes[0])] + Accumulators(Step(acc, codes[0]), codes[1..])
  }

  /** Every intermediate accumulator is a signed 32-bit value, and the last
      one is the result of the fold. */
  lemma {:induction false} AccumulatorsInRange(acc: int, codes: seq<CodeUnit>)
    ensures forall i :: 0 <= i < |codes| ==> InRange(Accumulators(acc, codes)[i])
    ensures codes != [] ==> Accumulators(acc, codes)[|codes| - 1] == Fold(acc, codes)
    decreases |codes|
  {
    if codes != [] {
      AccumulatorsInRange(Step(acc, codes[0]), codes[1..]);
    }
  }

  /** The i-th accumulator is the fold of the first i + 1 codes. */
  lemma {:induction false} AccumulatorsArePrefixFolds(acc: int, codes: seq<CodeUnit>, i: nat)
    requires i < |codes|
    ensures Accumulators(acc, codes)[i] == Fold(acc, codes[..i + 1])
    decreases |codes|
  {
    var p := codes[..i + 1];
    assert p[0] == codes[0];
    if i > 0 {
      assert p[1..] == codes[1..][..i];
      AccumulatorsArePrefixFolds(Step(acc, codes[0]), codes[1..], i - 1);
    } else {
      assert p[1..] == [];
    }
  }

  /** Prefix recurrence: hashing one more code is one more reducer step. */
  lemma {:induction false} FoldSnoc(acc: int, codes: seq<CodeUnit>, c: CodeUnit)
    ensures Fold(acc, codes + [c]) == Step(Fold(acc, codes), c)
    decreases |codes|
  {
    if codes == [] {
      assert codes + [c] == [c];
    } else {
      assert (codes + [c])[1..] == codes[1..] + [c];
      FoldSnoc(Step(acc, codes[0]), codes[1..], c);
    }
  }

  lemma HashAccEmpty()
    ensures HashAcc([]) == 0
  {
  }

  lemma HashAccSnoc(codes: seq<CodeUnit>, c: CodeUnit)
    ensures HashAcc(codes + [c]) == ToInt32(31 * HashAcc(codes) + c)
  {
    FoldSnoc(0, codes, c);
  }

  /** The polynomial sum codes[0]*31^(n-1) + ... + codes[n-1] on unbounded integers
      (the textbook definition of this hash, Java's String.hashCode). */
  function Polynomial(codes: seq<CodeUnit>): int
    decreases |codes|
  {
    if codes == [] then 0 else 31 * Polynomial(codes[..|codes| - 1]) + codes[|codes| - 1]
  }

  /** Closed form: the wrapping fold is the 32-bit truncation of the polynomial. */
  lemma {:induction false} HashAccIsTruncatedPolynomial(codes: seq<CodeUnit>)
    ensures HashAcc(codes) == ToInt32(Polynomial(codes))
    decreases |codes|
  {
    if codes == [] {
      ToInt32Identity(0);
    } else {
      var init, c := codes[..|codes| - 1], codes[|codes| - 1];
      assert codes == init + [c];
      HashAccSnoc(init, c);
      HashAccIsTruncatedPolynomial(init);
      ToInt32Step(31, Polynomial(init), c);
    }
  }

  /** The string the bot sends parses back to the 32-bit truncation of the
      polynomial hash of the codes Array.from yields; the empty id gives "0". */
  lemma HashMeaning(input: seq<CodeUnit>)
    ensures Decimal.ParseInt(Hash(input)) == ToInt32(Polynomial(LeadUnits(input)))
    ensures input == [] ==> Hash(input) == "0"
  {
    HashAccIsTruncatedPolynomial(LeadUnits(input));
    Decimal.ParseIntToString(HashAcc(LeadUnits(input)));
  }

  /** Two ids whose tags are equal have the same 32-bit hash (the rendering
      adds no collisions of its own). */
  lemma HashTagDeterminesAccumulator(a: seq<CodeUnit>, b: seq<CodeUnit>)
    requires Hash(a) == Hash(b)
    ensures HashAcc(LeadUnits(a)) == HashAcc(LeadUnits(b))
  {
    Decimal.IntToStringInjective(HashAcc(LeadUnits(a)), HashAcc(LeadUnits(b)));
  }

  /** A surrogate pair hashes as its high half alone. */
  lemma SurrogatePairHashesAsHighHalf(h: CodeUnit, l: CodeUnit)
    requires IsHighSurrogate(h) && IsLowSurrogate(l)
    ensures Hash([h, l]) == Hash([h])
  {
    assert PairAt([h, l], 0);
    assert [h, l][2..] == [];
  }
}
