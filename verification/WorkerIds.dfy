/** Decimal rendering (`%lu`, `{}`) and the zero-padded worker ids of the gateway. */
module WorkerIds {
  function Digit(d: nat): char
    requires d < 10
  {
    ('0' as int + d) as char
  }

  /** Decimal digits of `n`, most significant first. */
  function Decimal(n: nat): (s: string)
    ensures |s| >= 1
    ensures forall i :: 0 <= i < |s| ==> '0' <= s[i] <= '9'
  {
    if n < 10 then [Digit(n)] else Decimal(n / 10) + [Digit(n % 10)]
  }

  function DigitValue(c: char): nat {
    if '0' <= c <= '9' then c as int - '0' as int else 0
  }

  /** The number a digit string denotes; leading zeros do not matter. */
  function Value(s: string): nat {
    if s == [] then 0 else 10 * Value(s[..|s| - 1]) + DigitValue(s[|s| - 1])
  }

  function Zeros(n: nat): (s: string)
    ensures |s| == n
  {
    seq(n, _ => '0')
  }

  /** `format!("worker-{:06}", n)`. */
  function WorkerId(n: nat): string {
    var digits := Decimal(n);
    "worker-" + (if |digits| < 6 then Zeros(6 - |digits|) else "") + digits
  }

  /** The number inside a worker id. */
  function IdNumber(id: string): nat {
    if |id| < 7 then 0 else Value(id[7..])
  }

  lemma {:induction false} ValueOfDecimal(n: nat)
    ensures Value(Decimal(n)) == n
  {
    if n >= 10 {
      ValueOfDecimal(n / 10);
      var s := Decimal(n);
      assert s[..|s| - 1] == Decimal(n / 10);
    }
  }

  lemma {:induction false} ValueIgnoresLeadingZeros(k: nat, s: string)
    ensures Value(Zeros(k) + s) == Value(s)
  {
    var t := Zeros(k) + s;
    if s != [] {
      assert t[..|t| - 1] == Zeros(k) + s[..|s| - 1];
      ValueIgnoresLeadingZeros(k, s[..|s| - 1]);
    } else if k > 0 {
      assert t[..|t| - 1] == Zeros(k - 1) + s;
      ValueIgnoresLeadingZeros(k - 1, s);
    }
  }

  /** Padding loses nothing: two different counters never give the same id. */
  lemma IdNumberInvertsWorkerId(n: nat)
    ensures IdNumber(WorkerId(n)) == n
  {
    var digits := Decimal(n);
    var k := if |digits| < 6 then 6 - |digits| else 0;
    assert Zeros(0) == "";
    assert WorkerId(n)[7..] == Zeros(k) + digits;
    ValueIgnoresLeadingZeros(k, digits);
    ValueOfDecimal(n);
  }
}
