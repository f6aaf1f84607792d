/** The names of ZooKeeper nodes: `%05d@address` for a partition, `shard@address` for a member
    (`partitions.go`, `peers.go`). */
module ZkNames {
  /** A ZooKeeper path, component by component. */
  type Path = seq<string>

  /** Every name of a listing has the separator. */
  ghost predicate WellFormed(nodes: seq<string>) {
    forall node :: node in nodes ==> '@' in node
  }


  function Digit(d: nat): char
    requires d < 10
  {
    '0' + d as char
  }

  predicate IsDigit(c: char) {
    '0' <= c <= '9'
  }

  function DigitValue(c: char): nat
    requires IsDigit(c)
  {
    (c - '0') as nat
  }

  function Decimal(n: nat): string {
    if n < 10 then [Digit(n)] else Decimal(n / 10) + [Digit(n % 10)]
  }

  function PadTo5(s: string): string
    decreases 5 - |s|
  {
    if |s| >= 5 then s else PadTo5("0" + s)
  }

  /** `fmt.Sprintf("%05d", n)`. */
  function Print05(n: nat): string {
    PadTo5(Decimal(n))
  }

  predicate AllDigits(s: string) {
    forall i :: 0 <= i < |s| ==> IsDigit(s[i])
  }

  function DigitsValue(s: string): nat
    requires AllDigits(s)
  {
    if s == [] then 0 else 10 * DigitsValue(s[..|s| - 1]) + DigitValue(s[|s| - 1])
  }

  /** `strconv.Atoi` with its error dropped: 0 for anything that is not a number. */
  function Atoi(s: string): int {
    if s != [] && AllDigits(s) then DigitsValue(s)
    else if |s| > 1 && (s[0] == '-' || s[0] == '+') && AllDigits(s[1..]) then
      var magnitude: int := DigitsValue(s[1..]);
      if s[0] == '-' then -magnitude else magnitude
    else 0
  }

  /** What begins with neither a digit nor a sign counts as 0. */
  lemma UnreadableIsZero(s: string)
    requires s == [] || (!IsDigit(s[0]) && s[0] != '-' && s[0] != '+')
    ensures Atoi(s) == 0
  {
    if s != [] {
      assert !AllDigits(s);
    }
  }

  /** `strings.SplitN(s, "@", 2)` on a string that has an `@`. */
  function Split(s: string): (string, string)
    requires '@' in s
  {
    if s[0] == '@' then ([], s[1..])
    else
      assert '@' in s[1..];
      var (a, b) := Split(s[1..]);
      ([s[0]] + a, b)
  }

  function Join(a: string, b: string): string {
    a + "@" + b
  }

  /** Splitting at the first `@` undoes joining when the first part has none. */
  lemma {:induction false} SplitJoin(a: string, b: string)
    requires '@' !in a
    ensures '@' in Join(a, b) && Split(Join(a, b)) == (a, b)
  {
    var s := Join(a, b);
    assert s[|a|] == '@';
    if a == [] {
      assert s[1..] == b;
    } else {
      assert s[1..] == Join(a[1..], b);
      SplitJoin(a[1..], b);
      assert [a[0]] + a[1..] == a;
    }
  }

  lemma {:induction false} DecimalValue(n: nat)
    ensures AllDigits(Decimal(n)) && Decimal(n) != [] && DigitsValue(Decimal(n)) == n
  {
    if n >= 10 {
      DecimalValue(n / 10);
      var s, d := Decimal(n / 10), Digit(n % 10);
      assert (s + [d])[..|s|] == s;
    } else {
      assert Decimal(n)[..0] == [];
    }
  }

  lemma {:induction false} LeadingZero(s: string)
    requires AllDigits(s)
    ensures AllDigits("0" + s) && DigitsValue("0" + s) == DigitsValue(s)
  {
    var t := "0" + s;
    if s == [] {
      assert t[..0] == [];
    } else {
      LeadingZero(s[..|s| - 1]);
      assert t[..|t| - 1] == "0" + s[..|s| - 1];
    }
  }

  lemma {:induction false} PaddingKeepsValue(s: string)
    requires AllDigits(s)
    ensures AllDigits(PadTo5(s)) && DigitsValue(PadTo5(s)) == DigitsValue(s) && |PadTo5(s)| >= 5
    decreases 5 - |s|
  {
    if |s| < 5 {
      LeadingZero(s);
      PaddingKeepsValue("0" + s);
    }
  }

  lemma {:induction false} DecimalWidth(n: nat, k: nat, bound: nat)
    requires k > 0 && bound == Pow10(k)
    ensures |Decimal(n)| <= k <==> n < bound
    ensures n >= 10 ==> Decimal(n)[0] != '0'
  {
    if n >= 10 {
      if k > 1 {
        DecimalWidth(n / 10, k - 1, Pow10(k - 1));
      } else {
        DecimalWidth(n / 10, 1, 10);
        assert Pow10(1) == 10;
      }
      FirstDigit(n);
    } else {
      Pow10AtLeast(k);
    }
  }

  function Pow10(k: nat): nat {
    if k == 0 then 1 else 10 * Pow10(k - 1)
  }

  lemma {:induction false} Pow10AtLeast(k: nat)
    requires k > 0
    ensures Pow10(k) >= 10
  {
    if k > 1 {
      Pow10AtLeast(k - 1);
    }
  }

  lemma {:induction false} FirstDigit(n: nat)
    requires n >= 1
    ensures Decimal(n)[0] != '0'
  {
    if n >= 10 {
      FirstDigit(n / 10);
    }
  }

  /** Two such numbers. */
  lemma KnownPrints()
    ensures Print05(42) == "00042" && Print05(1234567) == "1234567"
  {
    assert Decimal(42) == "42";
    assert Decimal(123) == "123";
    assert Decimal(12345) == Decimal(123) + "45";
    assert Decimal(1234567) == Decimal(12345) + "67";
    assert PadTo5("00042") == "00042";
    assert "0" + "0042" == "00042";
    assert PadTo5("0042") == "00042";
    assert "0" + "042" == "0042";
    assert PadTo5("042") == "00042";
    assert "0" + "42" == "042";
  }

  /** Five places, filled with zeros, for every number that fits, and no more than needed otherwise. */
  lemma PrintWidth(n: nat)
    ensures |Print05(n)| == if n < 100000 then 5 else |Decimal(n)|
  {
    assert Pow10(5) == 100000;
    DecimalWidth(n, 5, 100000);
    PadWidth(Decimal(n));
  }

  lemma {:induction false} PadWidth(s: string)
    ensures |PadTo5(s)| == if |s| <= 5 then 5 else |s|
    decreases 5 - |s|
  {
    if |s| < 5 {
      PadWidth("0" + s);
    }
  }

  /** Printing a partition number and reading it back gives it back, however many digits it has. */
  lemma PrintThenRead(n: nat)
    ensures Atoi(Print05(n)) == n && '@' !in Print05(n)
  {
    DecimalValue(n);
    PaddingKeepsValue(Decimal(n));
    assert forall c :: c in Print05(n) ==> IsDigit(c);
  }

  /** The node a member creates for a partition. */
  function NodeName(partition: nat, address: string): string {
    Join(Print05(partition), address)
  }

  /** What a watcher makes of such a node. */
  function ParseNode(node: string): (int, string)
    requires '@' in node
  {
    var (a, b) := Split(node);
    (Atoi(a), b)
  }

  lemma NodeNameRoundTrip(partition: nat, address: string)
    ensures '@' in NodeName(partition, address)
    ensures ParseNode(NodeName(partition, address)) == (partition, address)
  {
    PrintThenRead(partition);
    SplitJoin(Print05(partition), address);
  }

  lemma NodeNameInjective(p: nat, a: string, q: nat, b: string)
    requires NodeName(p, a) == NodeName(q, b)
    ensures p == q && a == b
  {
    NodeNameRoundTrip(p, a);
    NodeNameRoundTrip(q, b);
  }
}
