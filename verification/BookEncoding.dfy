/** The text of a sorted-set member, `<20-digit sequence>:<order id>`: how it is written, how the
    engine and the public snapshot read it back, and why its text order is the sequence order. */
module BookEncoding {
  import opened Orders

  const WIDTH: nat := 20

  function Digit(d: nat): char
    requires d < 10
  {
    '0' + d as char
  }

  function Decimal(n: nat): string {
    if n < 10 then [Digit(n)] else Decimal(n / 10) + [Digit(n % 10)]
  }

  function PadStart(text: string, width: nat): string
    decreases width - |text|
  {
    if |text| >= width then text else PadStart("0" + text, width)
  }

  function MemberText(sequence: nat, id: OrderId): string {
    PadStart(Decimal(sequence), WIDTH) + ":" + id.text
  }

  // ----- Reading a member

  function IndexOf(text: string, c: char): (index: int)
    ensures -1 <= index < |text|
  {
    if text == "" then -1
    else if text[0] == c then 0
    else
      var rest := IndexOf(text[1..], c);
      if rest == -1 then -1 else rest + 1
  }

  function OrderIdOf(member: string): Option<OrderId> {
    var separator := IndexOf(member, ':');
    if separator == -1 then None else Some(OrderId(member[separator + 1..]))
  }

  predicate IsDigits(text: string) {
    forall i | 0 <= i < |text| :: '0' <= text[i] <= '9'
  }

  function Pow10(n: nat): nat {
    if n == 0 then 1 else 10 * Pow10(n - 1)
  }

  function Value(digits: string): nat
    requires IsDigits(digits)
  {
    if digits == "" then 0
    else (digits[0] - '0') as nat * Pow10(|digits| - 1) + Value(digits[1..])
  }

  /** The public decoder's `score`; None where `Number` would not read a whole number. */
  function SequenceOf(member: string): Option<nat> {
    var separator := IndexOf(member, ':');
    if separator <= 0 || !IsDigits(member[..separator]) then None else Some(Value(member[..separator]))
  }

  // ----- Decimal text

  lemma TimesTen(lead: nat, unit: nat)
    ensures lead * (10 * unit) == 10 * (lead * unit)
  {
  }

  lemma {:induction false} ValueAppend(digits: string, d: nat)
    requires IsDigits(digits) && d < 10
    ensures IsDigits(digits + [Digit(d)])
    ensures Value(digits + [Digit(d)]) == 10 * Value(digits) + d
  {
    var longer := digits + [Digit(d)];
    if digits == "" {
      assert longer[1..] == "";
    } else {
      ValueAppend(digits[1..], d);
      assert longer[1..] == digits[1..] + [Digit(d)] && longer[0] == digits[0];
      TimesTen((digits[0] - '0') as nat, Pow10(|digits| - 1));
    }
  }

  lemma {:induction false} DecimalValue(n: nat)
    ensures IsDigits(Decimal(n)) && Decimal(n) != "" && Value(Decimal(n)) == n
  {
    if n < 10 {
      assert Decimal(n)[1..] == "";
    } else {
      DecimalValue(n / 10);
      ValueAppend(Decimal(n / 10), n % 10);
    }
  }

  lemma {:induction false} DecimalLength(n: nat, width: nat)
    requires 0 < width && n < Pow10(width)
    ensures |Decimal(n)| <= width
  {
    if n >= 10 {
      DecimalLength(n / 10, width - 1);
    }
  }

  lemma {:induction false} PadStartKeeps(text: string, width: nat)
    requires IsDigits(text)
    ensures var padded := PadStart(text, width);
            IsDigits(padded) && Value(padded) == Value(text) && |padded| == if |text| < width then width else |text|
    decreases width - |text|
  {
    if |text| < width {
      assert ("0" + text)[1..] == text;
      PadStartKeeps("0" + text, width);
    }
  }

  lemma LeadBound(lead: nat, rest: nat, unit: nat)
    requires lead <= 9 && rest < unit
    ensures lead * unit + rest < 10 * unit
  {
    assert lead * unit <= 9 * unit;
  }

  lemma {:induction false} ValueBound(digits: string)
    requires IsDigits(digits)
    ensures Value(digits) < Pow10(|digits|)
  {
    if digits == "" {
    } else {
      ValueBound(digits[1..]);
      LeadBound((digits[0] - '0') as nat, Value(digits[1..]), Pow10(|digits| - 1));
    }
  }

  // ----- Round trip

  lemma {:induction false} IndexOfFirst(prefix: string, rest: string)
    requires IsDigits(prefix)
    ensures IndexOf(prefix + ":" + rest, ':') == |prefix|
  {
    var text := prefix + ":" + rest;
    if prefix == "" {
    } else {
      assert text[1..] == prefix[1..] + ":" + rest;
      IndexOfFirst(prefix[1..], rest);
    }
  }

  lemma {:induction false} IndexOfExactly(text: string, c: char)
    ensures IndexOf(text, c) == -1 <==> forall j | 0 <= j < |text| :: text[j] != c
    ensures var n := IndexOf(text, c); 0 <= n ==> text[n] == c && forall j | 0 <= j < n :: text[j] != c
  {
    if text == "" {
    } else {
      IndexOfExactly(text[1..], c);
      forall j | 0 < j < |text| ensures text[j] == text[1..][j - 1] {}
    }
  }

  /** An order id is read from any text with a colon, and is all that follows the first one. */
  lemma OrderIdFollowsTheColon(member: string)
    ensures OrderIdOf(member).None? <==> forall j | 0 <= j < |member| :: member[j] != ':'
    ensures OrderIdOf(member).Some? ==>
              exists n :: 0 <= n < |member| && member[n] == ':' && (forall j | 0 <= j < n :: member[j] != ':')
                          && OrderIdOf(member).value.text == member[n + 1..]
  {
    IndexOfExactly(member, ':');
    hide IndexOf;
    var n := IndexOf(member, ':');
    if n != -1 {
      assert member[n] == ':';
    }
  }

  /** Every member the engine writes is read back to its order, whatever characters the id holds, and its
      digits spell its sequence, however long that has grown.  (The snapshot's `Number` holds what the
      digits spell exactly below 2^53.) */
  lemma MemberRoundTrip(sequence: nat, id: OrderId)
    ensures OrderIdOf(MemberText(sequence, id)) == Some(id)
    ensures SequenceOf(MemberText(sequence, id)) == Some(sequence)
  {
    var digits := PadStart(Decimal(sequence), WIDTH);
    DecimalValue(sequence);
    PadStartKeeps(Decimal(sequence), WIDTH);
    IndexOfFirst(digits, id.text);
    var text := MemberText(sequence, id);
    assert text == digits + ":" + id.text;
    assert text[..|digits|] == digits && text[|digits| + 1..] == id.text;
  }

  lemma MemberTextIsInjective(m: nat, a: OrderId, n: nat, b: OrderId)
    requires MemberText(m, a) == MemberText(n, b)
    ensures m == n && a == b
  {
    MemberRoundTrip(m, a);
    MemberRoundTrip(n, b);
  }

  // ----- Text order

  /** The order Redis gives members of one score: byte by byte, a prefix first. */
  predicate TextLess(a: string, b: string) {
    if b == "" then false
    else if a == "" then true
    else if a[0] != b[0] then a[0] < b[0]
    else TextLess(a[1..], b[1..])
  }

  lemma {:induction false} TextLessIrreflexive(a: string)
    ensures !TextLess(a, a)
  {
    if a == "" {
    } else {
      TextLessIrreflexive(a[1..]);
    }
  }

  lemma {:induction false} TextLessTransitive(a: string, b: string, c: string)
    requires TextLess(a, b) && TextLess(b, c)
    ensures TextLess(a, c)
  {
    if a != "" && a[0] == b[0] == c[0] {
      TextLessTransitive(a[1..], b[1..], c[1..]);
    }
  }

  lemma {:induction false} TextLessTotal(a: string, b: string)
    ensures TextLess(a, b) || a == b || TextLess(b, a)
  {
    if a != "" && b != "" && a[0] == b[0] {
      TextLessTotal(a[1..], b[1..]);
      assert a == [a[0]] + a[1..] && b == [b[0]] + b[1..];
    }
  }

  lemma LeadDecides(x: nat, u: nat, y: nat, v: nat, unit: nat)
    requires u < unit && v < unit
    ensures x * unit + u < y * unit + v <==> x < y || (x == y && u < v)
  {
    if x < y {
      assert (x + 1) * unit <= y * unit;
    } else if y < x {
      assert (y + 1) * unit <= x * unit;
    }
  }

  lemma {:induction false} DigitOrder(a: string, b: string)
    requires IsDigits(a) && IsDigits(b) && |a| == |b|
    ensures TextLess(a, b) <==> Value(a) < Value(b)
  {
    if a == "" {
    } else {
      DigitOrder(a[1..], b[1..]);
      ValueBound(a[1..]);
      ValueBound(b[1..]);
      var x, y := (a[0] - '0') as nat, (b[0] - '0') as nat;
      LeadDecides(x, Value(a[1..]), y, Value(b[1..]), Pow10(|a| - 1));
      assert x < y <==> a[0] < b[0];
      assert x == y <==> a[0] == b[0];
    }
  }

  lemma {:induction false} PrefixDecides(p: string, q: string, x: string, y: string)
    requires |p| == |q| && p != q
    ensures TextLess(p + x, q + y) <==> TextLess(p, q)
  {
    if p[0] == q[0] {
      assert p == [p[0]] + p[1..] && q == [q[0]] + q[1..];
      assert (p + x)[1..] == p[1..] + x && (q + y)[1..] == q[1..] + y;
      PrefixDecides(p[1..], q[1..], x, y);
    }
  }

  lemma TenToTheTwentieth()
    ensures Pow10(WIDTH) == 100_000_000_000_000_000_000
  {
    assert Pow10(5) == 100_000;
    assert Pow10(10) == 10_000_000_000;
    assert Pow10(15) == 1_000_000_000_000_000;
  }

  /** The sort encoding is faithful: below 10^20 the member that sorts first is the one with the
      smaller sequence number. */
  lemma MemberOrderIsSequenceOrder(m: nat, a: OrderId, n: nat, b: OrderId)
    requires m < 100_000_000_000_000_000_000 && n < 100_000_000_000_000_000_000 && m != n
    ensures TextLess(MemberText(m, a), MemberText(n, b)) <==> m < n
  {
    hide PadStart, Decimal, Value, IsDigits, TextLess, Pow10;
    TenToTheTwentieth();
    var p, q := PadStart(Decimal(m), WIDTH), PadStart(Decimal(n), WIDTH);
    DecimalValue(m);
    DecimalValue(n);
    DecimalLength(m, WIDTH);
    DecimalLength(n, WIDTH);
    PadStartKeeps(Decimal(m), WIDTH);
    PadStartKeeps(Decimal(n), WIDTH);
    DigitOrder(p, q);
    PrefixDecides(p, q, ":" + a.text, ":" + b.text);
    assert MemberText(m, a) == p + (":" + a.text) && MemberText(n, b) == q + (":" + b.text);
  }
}
