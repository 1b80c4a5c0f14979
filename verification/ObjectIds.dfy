/** Mongo object ids and their hexadecimal form.  The store decodes ids from hex, while the cache is keyed
    by the raw string a caller sent, so the two agree only on strings in the form `Hex` prints. */
module ObjectIds {
  import opened Results

  /** Twelve bytes, read as one number. */
  type ObjectId = n: nat | n < 0x1_0000_0000_0000_0000_0000_0000

  predicate UpperHex(c: char) {
    'A' <= c <= 'F'
  }

  function Digit(n: nat): (c: char)
    requires n < 16
    ensures Nibble(c) == Some(n) && !UpperHex(c)
  {
    if n < 10 then '0' + n as char else 'a' + (n - 10) as char
  }

  /** The value of one hex digit; both letter cases are accepted. */
  function Nibble(c: char): (r: Option<nat>)
    ensures r.Some? ==> r.value < 16
  {
    if '0' <= c <= '9' then Some((c - '0') as int)
    else if 'a' <= c <= 'f' then Some((c - 'a') as int + 10)
    else if 'A' <= c <= 'F' then Some((c - 'A') as int + 10)
    else None
  }

  function Power16(k: nat): (p: nat)
    ensures p > 0
  {
    if k == 0 then 1 else 16 * Power16(k - 1)
  }

  /** The last `k` hex digits of a number. */
  function Encode(n: nat, k: nat): (s: string)
    ensures |s| == k
  {
    if k == 0 then "" else Encode(n / 16, k - 1) + [Digit(n % 16)]
  }

  function Decode(s: string): Option<nat> {
    if s == "" then Some(0)
    else
      match (Decode(s[..|s| - 1]), Nibble(s[|s| - 1]))
      case (Some(front), Some(last)) => Some(16 * front + last)
      case _ => None
  }

  lemma {:induction false} DecodedFits(s: string)
    requires Decode(s).Some?
    ensures Decode(s).value < Power16(|s|)
  {
    if s != "" {
      DecodedFits(s[..|s| - 1]);
    }
  }

  lemma {:induction false} DecodeEncoded(n: nat, k: nat)
    requires n < Power16(k)
    ensures Decode(Encode(n, k)) == Some(n)
  {
    if k > 0 {
      var front := Encode(n / 16, k - 1);
      DecodeEncoded(n / 16, k - 1);
      assert Encode(n, k)[..k - 1] == front && Encode(n, k)[k - 1] == Digit(n % 16);
    }
  }

  lemma TwentyFourDigits()
    ensures Power16(24) == 0x1_0000_0000_0000_0000_0000_0000
  {
    assert Power16(8) == 0x1_0000_0000;
    assert Power16(16) == 0x1_0000_0000_0000_0000;
  }

  /** `ObjectID.Hex`: 24 lower-case hex digits, from which `FromHex` recovers the id. */
  function Hex(id: ObjectId): (s: string)
    ensures |s| == 24 && FromHex(s) == Some(id)
  {
    TwentyFourDigits();
    DecodeEncoded(id, 24);
    Encode(id, 24)
  }

  /** `ObjectIDFromHex`: any other length or any other character is an error. */
  function FromHex(s: string): Option<ObjectId> {
    if |s| != 24 || Decode(s).None? then None
    else
      TwentyFourDigits();
      DecodedFits(s);
      Some(Decode(s).value)
  }

  // ---- The digits ----

  const DIGITS := "0123456789abcdef"

  /** Digit `k` of a printed id is that of weight 16 to the power `23 - k`. */
  lemma HexDigitAt(id: ObjectId, k: nat)
    requires k < 24
    ensures Hex(id)[k] == DIGITS[id / Power16(23 - k) % 16]
  {
    EncodedDigitAt(id, 24, k);
  }

  lemma DigitIs(n: nat)
    requires n < 16
    ensures Digit(n) == DIGITS[n]
  {
  }

  lemma {:induction false} EncodedDigitAt(n: nat, width: nat, k: nat)
    requires k < width
    ensures Encode(n, width)[k] == DIGITS[n / Power16(width - 1 - k) % 16]
  {
    if k == width - 1 {
      DigitIs(n % 16);
      assert n / Power16(0) == n;
    } else {
      EncodedDigitAt(n / 16, width - 1, k);
      DivideTwice(n, Power16(width - 2 - k));
    }
  }

  lemma DivideTwice(n: nat, b: nat)
    requires b > 0
    ensures n / 16 / b == n / (16 * b)
  {
    var q := n / (16 * b);
    var r := n % (16 * b);
    assert n == 16 * (q * b) + r;
    assert n / 16 == q * b + r / 16;
    assert r / 16 < b;
    Quotient(q, b, r / 16);
  }

  lemma Quotient(q: nat, b: nat, r: nat)
    requires r < b
    ensures (q * b + r) / b == q
  {
    var k := (q * b + r) / b;
    var m := (q * b + r) % b;
    assert q * b + r == k * b + m && 0 <= m < b;
    if k > q {
      TimesMore(q + 1, k, b);
    } else if k < q {
      TimesMore(k + 1, q, b);
    }
  }

  lemma TimesMore(a: nat, b: nat, c: nat)
    requires a <= b
    ensures a * c <= b * c
  {
  }

  function Lower(c: char): char {
    if UpperHex(c) then 'a' + (c - 'A') else c
  }

  lemma LowerNibble(c: char)
    ensures Nibble(c) == Nibble(Lower(c))
  {
  }

  /** The case of a hex digit does not matter to decoding. */
  lemma {:induction false} CaseIsIgnored(s: string, t: string)
    requires |s| == |t| && forall i :: 0 <= i < |s| ==> t[i] == Lower(s[i])
    ensures Decode(s) == Decode(t) && FromHex(s) == FromHex(t)
  {
    if s != "" {
      CaseIsIgnored(s[..|s| - 1], t[..|t| - 1]);
      LowerNibble(s[|s| - 1]);
    }
  }

  ghost predicate NoUpper(s: string) {
    forall c :: c in s ==> !UpperHex(c)
  }

  lemma NoUpperStep(s: string)
    requires s != ""
    ensures NoUpper(s) <==> NoUpper(s[..|s| - 1]) && !UpperHex(s[|s| - 1])
  {
    assert s == s[..|s| - 1] + [s[|s| - 1]];
  }

  lemma EncodeStep(front: nat, last: nat, s: string)
    requires last < 16 && s != ""
    ensures Encode(16 * front + last, |s|) == s
            <==> Encode(front, |s| - 1) == s[..|s| - 1] && Digit(last) == s[|s| - 1]
  {
    var n := 16 * front + last;
    assert n / 16 == front && n % 16 == last;
    assert s == s[..|s| - 1] + [s[|s| - 1]];
    var e := Encode(n, |s|);
    assert e == Encode(front, |s| - 1) + [Digit(last)];
    assert e[..|s| - 1] == Encode(front, |s| - 1) && e[|s| - 1] == Digit(last);
  }

  lemma {:induction false} DecodedIsCanonicalExactly(s: string)
    requires Decode(s).Some?
    ensures Encode(Decode(s).value, |s|) == s <==> NoUpper(s)
  {
    if s != "" {
      var front, last := s[..|s| - 1], s[|s| - 1];
      calc {
        Encode(Decode(s).value, |s|) == s;
        { EncodeStep(Decode(front).value, Nibble(last).value, s); }
        Encode(Decode(front).value, |front|) == front && Digit(Nibble(last).value) == last;
        { DecodedIsCanonicalExactly(front); }
        NoUpper(front) && !UpperHex(last);
        { NoUpperStep(s); }
        NoUpper(s);
      }
    }
  }

  /** A string that decodes is its id's printed form exactly when it has no upper-case digit. */
  lemma CanonicalExactly(s: string)
    requires FromHex(s).Some?
    ensures Hex(FromHex(s).value) == s <==> forall c :: c in s ==> !UpperHex(c)
  {
    DecodedIsCanonicalExactly(s);
  }
}
