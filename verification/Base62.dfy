/** The base-62 loop of `GenerateId` in `pkg/tools/uuid.go`. */
module Base62 {
  import opened Numerals

  const WIDTH := 22
  const TWO_128 := 0x1_0000_0000_0000_0000_0000_0000_0000_0000

  // base62Chars: the decimal digits, then the upper-case, then the lower-case letters.
  function Digit(d: nat): char {
    if d < 10 then '0' + (d as char)
    else if d < 36 then 'A' + ((d - 10) as char)
    else if d < 62 then 'a' + ((d - 36) as char)
    else '~'
  }

  /** The digits run through '0'-'9', then 'A'-'Z', then 'a'-'z'. */
  lemma DigitIs(d: nat)
    requires d < 61
    ensures Digit(0) == '0' && Digit(9) == '9' && Digit(10) == 'A' && Digit(35) == 'Z' && Digit(36) == 'a' && Digit(61) == 'z'
    ensures d !in {9, 35} ==> Digit(d + 1) == Digit(d) + 1 as char
  {
  }

  function Power(w: nat): nat {
    if w == 0 then 1 else 62 * Power(w - 1)
  }

  lemma DigitsGrow()
    ensures Growing(Digit, 62)
  {
  }

  lemma {:induction false} SmallFits(n: nat, w: nat)
    requires n < Power(w)
    ensures Fits(n, w, 62)
  {
    if w > 0 {
      SmallFits(n / 62, w - 1);
    }
  }

  lemma WidthSuffices()
    ensures TWO_128 < Power(WIDTH)
  {
    assert Power(4) == 14776336;
    assert Power(8) == 218340105584896;
    assert Power(12) == 3226266762397899821056;
    assert Power(16) == 47672401706823533450263330816;
    assert Power(20) == 704423425546998022968330264616370176;
    assert Power(22) == 62 * (62 * Power(20));
  }

  function Encode(n: nat): string {
    Numeral(n, WIDTH, 62, Digit)
  }

  lemma DigitSplits(n: nat, w: nat)
    ensures Numeral(n, w + 1, 62, Digit) == Numeral(n / 62, w, 62, Digit) + [Digit(n % 62)]
    ensures Drop(n, w + 1, 62) == Drop(n / 62, w, 62)
  {
  }

  lemma NothingLeft(n: nat)
    ensures Numeral(n, 0, 62, Digit) == [] && Drop(n, 0, 62) == n
  {
  }

  /** The loop writes the 22-digit numeral and, for 128-bit values, consumes the whole number. */
  method GenerateId(prefix: string, v: nat) returns (id: string, rest: nat)
    ensures id == prefix + "-" + Encode(v) && |id| == |prefix| + 23
    ensures v < TWO_128 ==> rest == 0
  {
    hide Digit, Power, Numeral, Drop;
    var num := v;
    var buf := new char[WIDTH];
    var i := WIDTH - 1;
    while i >= 0
      invariant -1 <= i < WIDTH
      invariant Encode(v) == Numeral(num, i + 1, 62, Digit) + buf[i + 1..]
      invariant Drop(v, WIDTH, 62) == Drop(num, i + 1, 62)
    {
      var mod := num % 62;
      ghost var tail := buf[i + 1..];
      DigitSplits(num, i);
      num := num / 62;
      buf[i] := Digit(mod);
      assert buf[i..] == [Digit(mod)] + tail;
      i := i - 1;
    }
    NothingLeft(num);
    if v < TWO_128 {
      WidthSuffices();
      SmallFits(v, WIDTH);
    }
    return prefix + "-" + buf[..], num;
  }

  /** Ids with one prefix are distinct for distinct values and sort bytewise like the values. */
  lemma IdsSortLikeValues(prefix: string, n: nat, m: nat)
    requires n < TWO_128 && m < TWO_128
    ensures n < m <==> Less(prefix + "-" + Encode(n), prefix + "-" + Encode(m))
    ensures prefix + "-" + Encode(n) == prefix + "-" + Encode(m) ==> n == m
  {
    DigitsGrow();
    WidthSuffices();
    SmallFits(n, WIDTH);
    SmallFits(m, WIDTH);
    NumeralOrder(n, m, WIDTH, 62, Digit);
    var p := prefix + "-";
    LessIrreflexive(p);
    LessAppend(p, p, Encode(n), Encode(m));
    if p + Encode(n) == p + Encode(m) {
      assert Encode(n) == (p + Encode(n))[|p|..] && Encode(m) == (p + Encode(m))[|p|..];
    }
  }
}
