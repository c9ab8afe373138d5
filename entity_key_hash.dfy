// EntityKeyHash of miniserver_gateway/db/utils.py: the short keys the gateway
// gives to new entities. A non-negative integer (a timestamp in microseconds)
// is offset by BASE^(MAX_LEN - 1) and written in base 52 over a consonant and
// digit alphabet, least significant digit first.

module EntityKeyHash {
  import opened Common

  /** Lower-case consonants, digits, upper-case consonants: the 52-character alphabet. */
  const Alphabet: string := "bcdfghjklmnpqrstvwxyz" + "0123456789" + "BCDFGHJKLMNPQRSTVWXYZ"
  const Base: nat := 52
  const MaxLen: nat := 6

  function Pow(b: nat, e: nat): (r: nat)
    ensures b >= 1 ==> r >= 1
  {
    if e == 0 then 1 else b * Pow(b, e - 1)
  }

  /** The padding offset `BASE ** (MAX_LEN - 1)` that encode adds and decode subtracts. */
  function Offset(): nat
  {
    Pow(Base, MaxLen - 1)
  }

  /** The k least significant base-52 digits of m, least significant first. */
  function Digits(m: nat, k: nat): (ds: seq<nat>)
    ensures |ds| == k
    ensures forall i :: 0 <= i < k ==> ds[i] < Base
  {
    if k == 0 then [] else [m % Base] + Digits(m / Base, k - 1)
  }

  /** The number a little-endian base-52 digit string stands for. */
  function DigitsValue(ds: seq<nat>): nat
  {
    if ds == [] then 0 else ds[0] + Base * DigitsValue(ds[1..])
  }

  /** The exact integer part of log_52(m); the source takes it from `math.log`. */
  function FloorLog(m: nat): nat
    requires m >= 1
  {
    if m < Base then 0 else 1 + FloorLog(m / Base)
  }

  /** The key `encode(n)` produces, stated as digits of n + Offset(). */
  function EncodedKey(n: int): string
    requires n + Offset() >= 1
  {
    var m := n + Offset();
    var ds := Digits(m, FloorLog(m) + 1);
    seq(|ds|, i requires 0 <= i < |ds| => if ds[i] < |Alphabet| then Alphabet[ds[i]] else '?')
  }

  /** Position of c in s, as `str.index` finds it, or None where it raises ValueError. */
  function IndexOf(s: string, c: char): (r: Option<nat>)
    ensures r.Some? ==> r.value < |s| && s[r.value] == c
    ensures r.Some? ==> forall j :: 0 <= j < r.value ==> s[j] != c
    ensures r.None? ==> c !in s
  {
    if s == [] then None
    else if s[0] == c then Some(0)
    else match IndexOf(s[1..], c)
      case None => None
      case Some(k) => Some(k + 1)
  }

  /** The alphabet positions of every character of key, or None if one is missing. */
  function Positions(key: string): Option<seq<nat>>
  {
    if key == [] then Some([])
    else match (IndexOf(Alphabet, key[0]), Positions(key[1..]))
      case (Some(d), Some(ds)) => Some([d] + ds)
      case _ => None
  }

  /** What `decode(key)` returns; None where `ALPHABET.index` raises ValueError. */
  function DecodedValue(key: string): Option<int>
  {
    match Positions(key)
    case None => None
    case Some(ds) => Some(DigitsValue(ds) - Offset())
  }

  // ---------------------------------------------------------------------------
  // Arithmetic helpers

  lemma PowPositive(e: nat)
    ensures Pow(Base, e) >= 1
  {
    if e > 0 { PowPositive(e - 1); }
  }
  lemma MulAtLeast(a: int, d: int)
    requires a >= 1 && d >= 0
    ensures a * d >= d
  {
    if a > 1 {
      MulAtLeast(a - 1, d);
      assert a * d == (a - 1) * d + d;
    }
  }
  lemma DivModUnique(m: int, d: int, q: int, r: int)
    requires d > 0 && 0 <= r < d && m == q * d + r
    ensures m / d == q && m % d == r
  {
    var q', r' := m / d, m % d;
    assert m == q' * d + r';
    assert (q - q') * d == r' - r by {
      assert (q - q') * d == q * d - q' * d;
    }
    if q > q' {
      MulAtLeast(q - q', d);
    } else if q < q' {
      MulAtLeast(q' - q, d);
    }
  }
  /** Splitting m by p and then the quotient by 52 is splitting m by 52 * p. */
  lemma SplitTwice(m: nat, p: nat)
    requires p >= 1
    ensures m % (Base * p) == ((m / p) % Base) * p + m % p
    ensures m / (Base * p) == (m / p) / Base
  {
    var q, r := m / p, m % p;
    var q2, d := q / Base, q % Base;
    assert m == q * p + r;
    assert q * p == q2 * (Base * p) + d * p by {
      assert q == q2 * Base + d;
      assert (q2 * Base + d) * p == q2 * Base * p + d * p;
    }
    assert d * p + r < Base * p by {
      MulAtLeast(Base - d, p);
      assert (Base - d) * p == Base * p - d * p;
    }
    DivModUnique(m, Base * p, q2, d * p + r);
  }
  lemma TopDigit(m: nat, t: nat)
    ensures Pow(Base, t) >= 1
    ensures (m % Pow(Base, t + 1)) / Pow(Base, t) == (m / Pow(Base, t)) % Base
    ensures m % Pow(Base, t + 1) - ((m / Pow(Base, t)) % Base) * Pow(Base, t) == m % Pow(Base, t)
  {
    PowPositive(t);
    var p := Pow(Base, t);
    SplitTwice(m, p);
    var d := (m / p) % Base;
    DivModUnique(d * p + m % p, p, d, m % p);
  }
  lemma DivDiv(m: nat, t: nat)
    ensures Pow(Base, t) >= 1
    ensures (m / Base) / Pow(Base, t) == m / Pow(Base, t + 1)
  {
    PowPositive(t);
    var p := Pow(Base, t);
    var q1, r1 := m / Base, m % Base;
    var q2, r2 := q1 / p, q1 % p;
    assert m == q1 * Base + r1;
    assert q1 * Base == q2 * (Base * p) + r2 * Base by {
      assert q1 == q2 * p + r2;
      assert (q2 * p + r2) * Base == q2 * (Base * p) + r2 * Base;
    }
    assert r2 * Base + r1 < Base * p by {
      MulAtLeast(p - r2, Base);
      assert (p - r2) * Base == Base * p - r2 * Base;
    }
    DivModUnique(m, Base * p, q2, r2 * Base + r1);
  }

  /** Digit i of Digits(m, k) is `int(m / 52^i) % 52`, the digit the encode loop extracts. */
  lemma {:induction false} DigitsAt(m: nat, k: nat, i: nat)
    requires i < k
    ensures |Digits(m, k)| == k
    ensures Pow(Base, i) >= 1
    ensures Digits(m, k)[i] == (m / Pow(Base, i)) % Base
  {
    DigitsLength(m, k);
    PowPositive(i);
    if i > 0 {
      DigitsAt(m / Base, k - 1, i - 1);
      DivDiv(m, i - 1);
    }
  }

  lemma {:induction false} DigitsLength(m: nat, k: nat)
    ensures |Digits(m, k)| == k
    ensures forall i :: 0 <= i < k ==> Digits(m, k)[i] < Base
  {
    if k > 0 { DigitsLength(m / Base, k - 1); }
  }

  lemma {:induction false} FloorLogBounds(m: nat)
    requires m >= 1
    ensures Pow(Base, FloorLog(m)) <= m < Pow(Base, FloorLog(m) + 1)
  {
    if m >= Base {
      FloorLogBounds(m / Base);
    }
  }

  lemma {:induction false} FloorLogUnique(m: nat, k: nat)
    requires Pow(Base, k) <= m < Pow(Base, k + 1)
    ensures m >= 1 && FloorLog(m) == k
  {
    PowPositive(k);
    if k == 0 {
    } else {
      DivDiv(m, k - 1);
      DivDiv(Pow(Base, k), k - 1);
      assert Pow(Base, k - 1) <= m / Base by {
        assert Pow(Base, k) == Base * Pow(Base, k - 1);
        DivModUnique(Pow(Base, k), Base, Pow(Base, k - 1), 0);
      }
      assert m / Base < Pow(Base, k) by {
        assert Pow(Base, k + 1) == Base * Pow(Base, k);
      }
      FloorLogUnique(m / Base, k - 1);
    }
  }

  /** The digits of m, read back, give m again when there are enough of them. */
  lemma {:induction false} DigitsValueOfDigits(m: nat, k: nat)
    requires m < Pow(Base, k)
    ensures DigitsValue(Digits(m, k)) == m
  {
    if k > 0 {
      assert m / Base < Pow(Base, k - 1);
      DigitsValueOfDigits(m / Base, k - 1);
      assert Digits(m, k)[1..] == Digits(m / Base, k - 1);
    }
  }

  /** Where a character sits in the alphabet, computed from its code point. */
  function Rank(c: char): int
  {
    if '0' <= c <= '9' then 21 + (c as int - '0' as int)
    else if 'b' <= c <= 'z' then ConsonantRank(c as int - 'b' as int)
    else if 'B' <= c <= 'Z' then 31 + ConsonantRank(c as int - 'B' as int)
    else -1
  }

  /** Rank among the consonants b..z of a letter at offset k from 'b' (vowels e, i, o, u skipped). */
  function ConsonantRank(k: int): int
  {
    k - (if k > 3 then 1 else 0) - (if k > 7 then 1 else 0)
      - (if k > 13 then 1 else 0) - (if k > 19 then 1 else 0)
  }

  lemma RankOfAlphabet()
    ensures |Alphabet| == Base
    ensures forall d :: 0 <= d < Base ==> Rank(Alphabet[d]) == d
  {
    forall d | 0 <= d < Base
      ensures Rank(Alphabet[d]) == d
    {
      if d < 21 {
        RankOfLowerCase(d);
      } else if d < 31 {
        RankOfDigit(d);
      } else {
        RankOfUpperCase(d);
      }
    }
  }

  lemma RankOfLowerCase(d: int)
    requires 0 <= d < 21
    ensures Rank(Alphabet[d]) == d
  {
  }

  lemma RankOfDigit(d: int)
    requires 21 <= d < 31
    ensures Rank(Alphabet[d]) == d
  {
  }

  lemma RankOfUpperCase(d: int)
    requires 31 <= d < Base
    ensures Rank(Alphabet[d]) == d
  {
  }

  /** The alphabet's characters are pairwise distinct, so `index` recovers every digit. */
  lemma AlphabetDistinct()
    ensures |Alphabet| == Base
    ensures forall i, j :: 0 <= i < j < |Alphabet| ==> Alphabet[i] != Alphabet[j]
  {
    RankOfAlphabet();
  }

  lemma IndexOfDigit(d: nat)
    requires d < Base
    ensures IndexOf(Alphabet, Alphabet[d]) == Some(d)
  {
    AlphabetDistinct();
  }

  lemma {:induction false} PositionsOfKey(ds: seq<nat>)
    requires forall i :: 0 <= i < |ds| ==> ds[i] < Base
    ensures Positions(seq(|ds|, i requires 0 <= i < |ds| => Alphabet[ds[i]])) == Some(ds)
  {
    AlphabetDistinct();
    var key := seq(|ds|, i requires 0 <= i < |ds| => Alphabet[ds[i]]);
    if ds != [] {
      IndexOfDigit(ds[0]);
      PositionsOfKey(ds[1..]);
      assert key[1..] == seq(|ds[1..]|, i requires 0 <= i < |ds[1..]| => Alphabet[ds[1..][i]]);
      assert key[0] == Alphabet[ds[0]];
      assert [ds[0]] + ds[1..] == ds;
    }
  }

  // ---------------------------------------------------------------------------
  // encode / decode

  /**
   * `encode(n)`: the digits are produced most significant first, as
   * `a = int(n / bcp) % BASE` with `bcp = BASE ** t` for t counting down,
   * and the list is reversed at the end. `math.log` raises ValueError for a
   * non-positive argument, which is the None result.
   */
  method Encode(n: int) returns (r: Option<string>)
    ensures n + Offset() >= 1 ==> r == Some(EncodedKey(n))
    ensures n + Offset() < 1 ==> r == None
  {
    var m := n + Offset();
    if m < 1 {
      return None;
    }
    var t: int := FloorLog(m);
    ghost var top := t;
    ghost var ds := Digits(m, top + 1);
    FloorLogBounds(m);
    DigitsLength(m, top + 1);
    AlphabetDistinct();
    var rest := m;
    DivModUnique(m, Pow(Base, top + 1), 0, m);
    var s: string := [];
    while true
      invariant 0 <= t <= top
      invariant |s| == top - t
      invariant rest == m % Pow(Base, t + 1)
      invariant forall i :: 0 <= i < |s| ==> s[i] == Alphabet[ds[top - i]]
      decreases t
    {
      var bcp := Pow(Base, t);
      var a := (rest / bcp) % Base;
      EncodeStep(m, top, t, rest);
      s := s + [Alphabet[a]];
      rest := rest - a * bcp;
      t := t - 1;
      if t < 0 {
        break;
      }
    }
    var key := seq(|s|, i requires 0 <= i < |s| => s[|s| - 1 - i]);
    ReversedDigitsAreKey(n, s);
    return Some(key);
  }

  lemma ReversedDigitsAreKey(n: int, s: string)
    requires n + Offset() >= 1
    requires |s| == FloorLog(n + Offset()) + 1
    requires forall i :: 0 <= i < |s| ==> s[i] == Alphabet[Digits(n + Offset(), |s|)[|s| - 1 - i]]
    ensures seq(|s|, i requires 0 <= i < |s| => s[|s| - 1 - i]) == EncodedKey(n)
  {
    var m := n + Offset();
    var ds := Digits(m, |s|);
    AlphabetDistinct();
    var key := seq(|s|, i requires 0 <= i < |s| => s[|s| - 1 - i]);
    forall i | 0 <= i < |s|
      ensures key[i] == EncodedKey(n)[i]
    {
      assert key[i] == Alphabet[ds[i]];
    }
  }

  /** One turn of the encode loop extracts digit t of m and leaves m % 52^t. */
  lemma EncodeStep(m: nat, top: nat, t: nat, rest: nat)
    requires t <= top
    requires rest == m % Pow(Base, t + 1)
    ensures |Digits(m, top + 1)| == top + 1
    ensures (rest / Pow(Base, t)) % Base == Digits(m, top + 1)[t]
    ensures rest - ((rest / Pow(Base, t)) % Base) * Pow(Base, t) == m % Pow(Base, t)
  {
    TopDigit(m, t);
    DigitsAt(m, top + 1, t);
  }

  /**
   * `decode(key)`: the key is reversed and its characters are weighted by
   * BASE ** (l - t) for t counting up; the offset is subtracted at the end.
   * An empty key decodes to -Offset(); a character outside the alphabet makes
   * `ALPHABET.index` raise, which is the None result.
   */
  method Decode(key: string) returns (r: Option<int>)
    ensures r == DecodedValue(key)
  {
    var rev := seq(|key|, i requires 0 <= i < |key| => key[|key| - 1 - i]);
    var acc := 0;
    var l := |key| - 1;
    var t := 0;
    ghost var ds: seq<nat> := [];
    assert key[|key|..] == [];
    while t <= l
      invariant 0 <= t <= |key|
      invariant Positions(key[|key| - t..]) == Some(ds)
      invariant acc == Pow(Base, |key| - t) * DigitsValue(ds)
    {
      assert rev[t] == key[|key| - 1 - t];
      var d := IndexOf(Alphabet, rev[t]);
      if d.None? {
        PositionsMissing(key, |key| - 1 - t);
        return None;
      }
      DecodeStep(key, t, acc, d.value);
      var bcpow := Pow(Base, l - t);
      acc := acc + d.value * bcpow;
      t := t + 1;
      ds := Positions(key[|key| - t..]).value;
    }
    assert key[0..] == key;
    return Some(acc - Offset());
  }

  /** One more character read from the right extends the positions and the value. */
  lemma PositionsStep(key: string, k: nat)
    requires k < |key|
    requires Positions(key[k + 1..]).Some?
    requires IndexOf(Alphabet, key[k]).Some?
    ensures Positions(key[k..]) == Some([IndexOf(Alphabet, key[k]).value] + Positions(key[k + 1..]).value)
    ensures Pow(Base, k) * DigitsValue(Positions(key[k..]).value)
      == IndexOf(Alphabet, key[k]).value * Pow(Base, k)
         + Pow(Base, k + 1) * DigitsValue(Positions(key[k + 1..]).value)
  {
    assert key[k..][1..] == key[k + 1..];
    var d := IndexOf(Alphabet, key[k]).value;
    var ds := Positions(key[k + 1..]).value;
    assert ([d] + ds)[1..] == ds;
    WeightedDigit(Pow(Base, k), d, DigitsValue(ds));
  }

  /** One iteration of decode's loop keeps the accumulated value of the characters read so far. */
  lemma DecodeStep(key: string, t: nat, acc: int, d: nat)
    requires t < |key|
    requires Positions(key[|key| - t..]).Some?
    requires acc == Pow(Base, |key| - t) * DigitsValue(Positions(key[|key| - t..]).value)
    requires IndexOf(Alphabet, key[|key| - 1 - t]) == Some(d)
    ensures Positions(key[|key| - (t + 1)..]).Some?
    ensures acc + d * Pow(Base, |key| - 1 - t)
            == Pow(Base, |key| - (t + 1)) * DigitsValue(Positions(key[|key| - (t + 1)..]).value)
  {
    var k := |key| - 1 - t;
    assert |key| - t == k + 1 && |key| - (t + 1) == k;
    PositionsStep(key, k);
  }

  lemma WeightedDigit(p: nat, d: nat, v: nat)
    ensures p * (d + Base * v) == d * p + (Base * p) * v
  {
  }

  lemma {:induction false} PositionsMissing(key: string, k: nat)
    requires k < |key|
    requires IndexOf(Alphabet, key[k]).None?
    ensures Positions(key) == None
  {
    if k > 0 {
      PositionsMissing(key[1..], k - 1);
    }
  }

  // ---------------------------------------------------------------------------
  // Properties

  /** decode(encode(n)) == n for every n that encode accepts, so encode is injective. */
  lemma EncodeDecodeRoundTrip(n: int)
    requires n + Offset() >= 1
    ensures DecodedValue(EncodedKey(n)) == Some(n)
  {
    var m := n + Offset();
    EncodedPositions(n);
    FloorLogBounds(m);
    DigitsValueOfDigits(m, FloorLog(m) + 1);
  }

  /** The characters of encode(n) stand at the alphabet positions of its digits. */
  lemma EncodedPositions(n: int)
    requires n + Offset() >= 1
    ensures Positions(EncodedKey(n)) == Some(Digits(n + Offset(), FloorLog(n + Offset()) + 1))
  {
    var m := n + Offset();
    var ds := Digits(m, FloorLog(m) + 1);
    DigitsLength(m, FloorLog(m) + 1);
    AlphabetDistinct();
    assert EncodedKey(n) == seq(|ds|, i requires 0 <= i < |ds| => Alphabet[ds[i]]);
    PositionsOfKey(ds);
  }

  lemma EncodeInjective(n1: int, n2: int)
    requires n1 + Offset() >= 1 && n2 + Offset() >= 1
    requires EncodedKey(n1) == EncodedKey(n2)
    ensures n1 == n2
  {
    EncodeDecodeRoundTrip(n1);
    EncodeDecodeRoundTrip(n2);
  }

  /** Every character of a key belongs to the alphabet. */
  lemma EncodedKeyInAlphabet(n: int)
    requires n + Offset() >= 1
    ensures forall i :: 0 <= i < |EncodedKey(n)| ==> EncodedKey(n)[i] in Alphabet
  {
    var m := n + Offset();
    DigitsLength(m, FloorLog(m) + 1);
    AlphabetDistinct();
  }

  /**
   * A key of a non-negative number has at least MAX_LEN characters, and
   * exactly MAX_LEN while n < 52^6 - 52^5.
   */
  lemma EncodedKeyLength(n: int)
    requires n >= 0
    ensures |EncodedKey(n)| >= MaxLen
    ensures n < Pow(Base, MaxLen) - Offset() ==> |EncodedKey(n)| == MaxLen
  {
    var m := n + Offset();
    DigitsLength(m, FloorLog(m) + 1);
    FloorLogBounds(m);
    if FloorLog(m) < MaxLen - 1 {
      PowMonotone(FloorLog(m) + 1, MaxLen - 1);
    }
    if n < Pow(Base, MaxLen) - Offset() {
      FloorLogUnique(m, MaxLen - 1);
    }
  }

  lemma {:induction false} PowMonotone(i: nat, j: nat)
    requires i <= j
    ensures Pow(Base, i) <= Pow(Base, j)
  {
    if i < j {
      PowMonotone(i, j - 1);
      PowPositive(j - 1);
    }
  }

  /** The first character of a key is the least significant digit of n + 52^5. */
  lemma EncodedKeyFirstDigit(n: int)
    requires n + Offset() >= 1
    ensures |EncodedKey(n)| >= 1
    ensures EncodedKey(n)[0] == Alphabet[(n + Offset()) % Base]
  {
    var m := n + Offset();
    DigitsLength(m, FloorLog(m) + 1);
    AlphabetDistinct();
  }
}
