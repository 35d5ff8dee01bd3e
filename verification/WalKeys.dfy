/** The names of log files. A slot is written with at least twelve digits but a marker is read only
    if it has exactly twelve, which is where the model's MARKER_LIMIT comes from. */
module WalKeys {
  import opened Wrappers
  import opened Text
  import opened Wal

  const WIDTH: nat := 12

  function Zeros(n: nat): (s: string)
    ensures |s| == n
  {
    if n == 0 then "" else "0" + Zeros(n - 1)
  }

  /** Zero-padded on the left to twelve digits, and longer if the number is. */
  function Seq12(n: nat): string {
    var d := Decimal(n);
    (if |d| < WIDTH then Zeros(WIDTH - |d|) else "") + d
  }

  function MarkerName(n: nat, suffix: string): string {
    Seq12(n) + suffix
  }

  function TrimSuffix(name: string, suffix: string): string {
    if |suffix| <= |name| && name[|name| - |suffix|..] == suffix then name[..|name| - |suffix|] else name
  }

  function SlotOf(name: string, suffix: string): Option<nat> {
    var base := TrimSuffix(name, suffix);
    if |base| == WIDTH && AllDigits(base) then Some(DecimalValue(base)) else None
  }

  method SeqFromMarker(name: string, suffix: string) returns (r: Option<nat>)
    ensures r == SlotOf(name, suffix)
  {
    var base := TrimSuffix(name, suffix);
    if |base| != WIDTH {
      return None;
    }
    var v: nat := 0;
    for i := 0 to WIDTH
      invariant AllDigits(base[..i]) && v == DecimalValue(base[..i])
    {
      assert base[..i + 1][..i] == base[..i];
      if !IsDigit(base[i]) {
        assert base[i] in base;
        return None;
      }
      v := v * 10 + DigitValue(base[i]);
    }
    assert base[..WIDTH] == base;
    r := Some(v);
  }

  lemma {:induction false} DecimalWidth(n: nat, w: nat)
    requires w > 0
    ensures |Decimal(n)| <= w <==> n < Pow10(w)
    decreases w
  {
    if w == 1 {
      assert Pow10(1) == 10 * Pow10(0);
    } else if n >= 10 {
      DecimalWidth(n / 10, w - 1);
      assert Pow10(w) == 10 * Pow10(w - 1);
    } else {
      assert Pow10(w) == 10 * Pow10(w - 1);
    }
  }

  lemma {:induction false} LeadingZeros(k: nat, s: string)
    requires AllDigits(s)
    ensures AllDigits(Zeros(k) + s) && DecimalValue(Zeros(k) + s) == DecimalValue(s)
  {
    if k > 0 {
      LeadingZeros(k - 1, s);
      LeadingZero(Zeros(k - 1) + s);
      assert "0" + (Zeros(k - 1) + s) == Zeros(k) + s;
    } else {
      assert Zeros(0) + s == s;
    }
  }

  lemma {:induction false} LeadingZero(s: string)
    requires AllDigits(s)
    ensures AllDigits("0" + s) && DecimalValue("0" + s) == DecimalValue(s)
  {
    if s == "" {
      assert ("0" + s)[..0] == "";
    } else {
      var n := |s| - 1;
      assert forall c :: c in s[..n] ==> c in s;
      LeadingZero(s[..n]);
      assert ("0" + s)[..n + 1] == "0" + s[..n];
    }
  }

  lemma LimitIsTwelveDigits()
    ensures Pow10(WIDTH) == MARKER_LIMIT
  {
    assert Pow10(4) == 10000;
    assert Pow10(8) == 10 * (10 * (10 * (10 * Pow10(4))));
    assert Pow10(12) == 10 * (10 * (10 * (10 * Pow10(8))));
  }

  /** A marker reads back as its slot exactly for the slots below the limit; a later marker is never
      recognised, so its op stays pending for every reader. */
  lemma MarkerReadsBackIff(n: nat, suffix: string)
    ensures SlotOf(MarkerName(n, suffix), suffix) == if n < MARKER_LIMIT then Some(n) else None
  {
    var name := MarkerName(n, suffix);
    assert TrimSuffix(name, suffix) == Seq12(n);
    DecimalWidth(n, WIDTH);
    LimitIsTwelveDigits();
    DecimalRoundTrip(n);
    if |Decimal(n)| <= WIDTH {
      LeadingZeros(WIDTH - |Decimal(n)|, Decimal(n));
      assert |Decimal(n)| == WIDTH ==> Zeros(0) + Decimal(n) == Decimal(n);
    }
  }
}
