/** The human name shown for a chain ID: a fixed table of well-known chains, and
    the text "Unknown (chain ID <id>)" for every other ID. */
module Networks {

  const Known: map<int, string> := map[
    1 := "Ethereum Mainnet",
    11155111 := "Sepolia Testnet",
    10 := "Optimism",
    137 := "Polygon",
    42161 := "Arbitrum One",
    8453 := "Base"
  ]

  const UnknownPrefix: string := "Unknown (chain ID "

  predicate IsDigit(c: char) {
    '0' <= c <= '9'
  }

  function DigitChar(d: int): (c: char)
    requires 0 <= d < 10
    ensures IsDigit(c) && c as int - '0' as int == d
  {
    ('0' as int + d) as char
  }

  /** The decimal digits of `n`, most significant first, without leading zeros. */
  function NatToDecimal(n: nat): (s: string)
    ensures |s| > 0
    ensures forall k :: 0 <= k < |s| ==> IsDigit(s[k])
    ensures s[0] == '0' ==> n == 0
    decreases n
  {
    if n < 10 then [DigitChar(n)] else NatToDecimal(n / 10) + [DigitChar(n % 10)]
  }

  /** The number a string of decimal digits denotes. */
  function DecimalValue(s: string): nat
    requires forall k :: 0 <= k < |s| ==> IsDigit(s[k])
  {
    if s == [] then 0
    else
      var last := s[|s| - 1];
      assert IsDigit(last);
      DecimalValue(s[..|s| - 1]) * 10 + (last as int - '0' as int)
  }

  /** Reading back the decimal rendering of a number gives that number. */
  lemma {:induction false} DecimalRoundTrip(n: nat)
    ensures DecimalValue(NatToDecimal(n)) == n
    decreases n
  {
    var s := NatToDecimal(n);
    if n >= 10 {
      DecimalRoundTrip(n / 10);
      assert s[..|s| - 1] == NatToDecimal(n / 10);
    }
  }

  /** Python's `str(i)` for an integer: a minus sign before negative numbers. */
  function IntToString(i: int): string {
    if i < 0 then "-" + NatToDecimal(-i) else NatToDecimal(i)
  }

  /** The rendering starts with a minus sign exactly for negative numbers. */
  lemma LeadingMinusIffNegative(i: int)
    ensures |IntToString(i)| > 0 && (IntToString(i)[0] == '-' <==> i < 0)
  {
    if i >= 0 {
      assert IsDigit(NatToDecimal(i)[0]);
    }
  }

  lemma IntToStringInjective(a: int, b: int)
    requires IntToString(a) == IntToString(b)
    ensures a == b
  {
    LeadingMinusIffNegative(a);
    LeadingMinusIffNegative(b);
    if a < 0 {
      var s := IntToString(a);
      assert NatToDecimal(-a) == s[1..] == NatToDecimal(-b);
      DecimalRoundTrip(-a);
      DecimalRoundTrip(-b);
    } else {
      DecimalRoundTrip(a);
      DecimalRoundTrip(b);
    }
  }

  /** `network_name`: the table's name for a known chain ID, otherwise the
      "Unknown (chain ID <id>)" fallback. */
  function NetworkName(cid: int): string {
    if cid in Known then Known[cid] else UnknownPrefix + IntToString(cid) + ")"
  }

  /** Different chain IDs never get the same name: the table's names are
      distinct, none of them looks like the fallback, and the fallback spells the
      ID out. */
  lemma NetworkNameInjective(a: int, b: int)
    requires NetworkName(a) == NetworkName(b)
    ensures a == b
  {
    var na := NetworkName(a);
    if a in Known && b in Known {
    } else if a !in Known && b !in Known {
      var p := |UnknownPrefix|;
      assert IntToString(a) == na[p..|na| - 1];
      assert IntToString(b) == na[p..|na| - 1];
      IntToStringInjective(a, b);
    }
  }
}
