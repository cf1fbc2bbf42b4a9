/** Idempotency keys: a prefix and the decimal bounds of the batch, joined by dashes. */
module IdempotencyKey {
  import opened Alphabet

  function Digit(d: nat): char
    requires d < 10
  {
    '0' + d as char
  }

  function Decimal(n: nat): string {
    if n < 10 then [Digit(n)] else Decimal(n / 10) + [Digit(n % 10)]
  }

  function BatchKey(prefix: string, first: nat, last: nat): string {
    prefix + "-" + Decimal(first) + "-" + Decimal(last)
  }

  /** Reads a decimal back. */
  function Value(s: string): int {
    if |s| == 0 then 0 else Value(s[..|s| - 1]) * 10 + (s[|s| - 1] as int - '0' as int)
  }

  lemma {:induction false} DecimalReadsBack(n: nat)
    ensures Value(Decimal(n)) == n
  {
    if n < 10 {
      assert Value(Decimal(n)[..0]) == 0;
    } else {
      DecimalReadsBack(n / 10);
      assert Decimal(n)[..|Decimal(n)| - 1] == Decimal(n / 10);
    }
  }

  predicate IsDigit(c: char) {
    '0' <= c <= '9'
  }

  lemma {:induction false} DecimalDigits(n: nat)
    ensures |Decimal(n)| > 0 && forall c :: c in Decimal(n) ==> IsDigit(c)
  {
    if n < 10 {
    } else {
      DecimalDigits(n / 10);
    }
  }

  lemma FirstDash(a: string, x: string)
    requires forall c :: c in a ==> IsDigit(c)
    ensures (a + "-" + x)[|a|] == '-' && forall i :: 0 <= i < |a| ==> (a + "-" + x)[i] != '-'
  {
    forall i | 0 <= i < |a| ensures (a + "-" + x)[i] != '-' {
      assert a[i] in a;
    }
  }

  /** Two digit strings followed by a dash can only agree if the strings do. */
  lemma DashSplits(a: string, x: string, b: string, y: string)
    requires a + "-" + x == b + "-" + y
    requires forall c :: c in a ==> IsDigit(c)
    requires forall c :: c in b ==> IsDigit(c)
    ensures a == b && x == y
  {
    var s, t := a + "-" + x, b + "-" + y;
    FirstDash(a, x);
    FirstDash(b, y);
    assert |a| == |b|;
    assert s[..|a|] == a && t[..|b|] == b;
    assert s[|a| + 1..] == x && t[|b| + 1..] == y;
  }

  /** Under one prefix, different batches never share a key. */
  lemma KeyInjective(prefix: string, first: nat, last: nat, first': nat, last': nat)
    requires BatchKey(prefix, first, last) == BatchKey(prefix, first', last')
    ensures first == first' && last == last'
  {
    var k, k' := BatchKey(prefix, first, last), BatchKey(prefix, first', last');
    var x, x' := Decimal(first) + "-" + Decimal(last), Decimal(first') + "-" + Decimal(last');
    assert k == prefix + "-" + x && k' == prefix + "-" + x';
    assert k[|prefix| + 1..] == x && k'[|prefix| + 1..] == x';
    DecimalDigits(first);
    DecimalDigits(first');
    DashSplits(Decimal(first), Decimal(last), Decimal(first'), Decimal(last'));
    DecimalReadsBack(first);
    DecimalReadsBack(first');
    DecimalReadsBack(last);
    DecimalReadsBack(last');
  }

  // ---- the service's pattern for keys ----

  predicate KeyChar(c: char) {
    'A' <= c <= 'Z' || 'a' <= c <= 'z' || '0' <= c <= '9' || c in "._:-"
  }

  /** The alphabet the firmware spells out for device ids is the one the service's pattern gives by ranges. */
  lemma SameAlphabet(c: char)
    ensures KeyChar(c) <==> c in LOWER + UPPER + DIGITS + "._:-"
  {
    Ranges(c);
  }

  predicate KeyAccepted(key: string) {
    16 <= |key| <= 128 && forall i :: 0 <= i < |key| ==> KeyChar(key[i])
  }

  /** The firmware's own check on its device id: not empty, the same alphabet, no bound on the length. */
  predicate DeviceIdAccepted(device: string) {
    |device| > 0 && forall i :: 0 <= i < |device| ==> KeyChar(device[i])
  }

  function DeviceKey(device: string, first: nat, last: nat): string {
    BatchKey("myaqi-batch-" + device, first, last)
  }

  /** The key, spelled out. */
  lemma DeviceKeyText(device: string, first: nat, last: nat)
    ensures DeviceKey(device, first, last) == "myaqi-batch-" + device + "-" + Decimal(first) + "-" + Decimal(last)
    ensures first < 10 ==> Decimal(first) == [DIGITS[first]]
  {
    Runs();
  }

  lemma PlainKey(device: string, first: nat, last: nat)
    requires DeviceIdAccepted(device)
    ensures forall c :: c in DeviceKey(device, first, last) ==> KeyChar(c)
    ensures |DeviceKey(device, first, last)| == 14 + |device| + |Decimal(first)| + |Decimal(last)|
  {
    DecimalDigits(first);
    DecimalDigits(last);
    assert forall c :: c in "myaqi-batch-" ==> KeyChar(c);
    assert forall c :: c in "-" ==> KeyChar(c);
  }

  /** The service accepts the firmware's key exactly when device id and bounds leave room in 128 characters. */
  lemma DeviceKeyAccepted(device: string, first: nat, last: nat)
    requires DeviceIdAccepted(device)
    ensures KeyAccepted(DeviceKey(device, first, last)) <==>
              |device| + |Decimal(first)| + |Decimal(last)| <= 114
  {
    PlainKey(device, first, last);
    DecimalDigits(first);
    DecimalDigits(last);
    var key := DeviceKey(device, first, last);
    assert forall i :: 0 <= i < |key| ==> key[i] in key;
  }

  function Power10(k: nat): nat {
    if k == 0 then 1 else 10 * Power10(k - 1)
  }

  lemma {:induction false} DecimalLength(n: nat, k: nat)
    requires k > 0 && n < Power10(k)
    ensures |Decimal(n)| <= k
  {
    if n < 10 {
    } else {
      DecimalLength(n / 10, k - 1);
    }
  }

  /** Device ids the database can store, and sequences of up to 25 digits, always give an accepted key. */
  lemma StoredDeviceKeyAccepted(device: string, first: nat, last: nat)
    requires DeviceIdAccepted(device) && |device| <= 64
    requires first < Power10(25) && last < Power10(25)
    ensures KeyAccepted(DeviceKey(device, first, last))
  {
    DecimalLength(first, 25);
    DecimalLength(last, 25);
    DeviceKeyAccepted(device, first, last);
  }
}
