/** Decimal rendering and colon-separated text: what makes the joined keys and hash inputs readable back. */
module Text {

  function DecNat(n: nat): string
  {
    var digit := (48 + n % 10) as char;
    if n < 10 then [digit] else DecNat(n / 10) + [digit]
  }

  /** `{}` formatting of a signed integer. */
  function Dec(n: int): string
  {
    if n < 0 then "-" + DecNat(-n) else DecNat(n)
  }

  function ReadNat(s: string): int
  {
    if s == "" then 0 else ReadNat(s[..|s| - 1]) * 10 + (s[|s| - 1] as int - 48)
  }

  lemma {:induction false} DecNatReadsBack(n: nat)
    ensures ReadNat(DecNat(n)) == n
    ensures DecNat(n) != "" && forall i | 0 <= i < |DecNat(n)| :: '0' <= DecNat(n)[i] <= '9'
  {
    var digit := (48 + n % 10) as char;
    if n >= 10 {
      DecNatReadsBack(n / 10);
      assert DecNat(n)[..|DecNat(n)| - 1] == DecNat(n / 10);
    } else {
      assert DecNat(n) == [digit];
      assert [digit][..0] == "";
      assert ReadNat([digit]) == ReadNat("") * 10 + (digit as int - 48);
    }
  }

  /** Different integers are rendered differently. */
  lemma DecInjective(m: int, n: int)
    requires Dec(m) == Dec(n)
    ensures m == n
  {
    DecNatReadsBack(if m < 0 then -m else m);
    DecNatReadsBack(if n < 0 then -n else n);
    assert (m < 0) == (Dec(m)[0] == '-') && (n < 0) == (Dec(n)[0] == '-');
    assert (m < 0) == (n < 0);
    if m < 0 {
      assert Dec(m)[1..] == DecNat(-m) && Dec(n)[1..] == DecNat(-n);
    }
  }

  lemma DecHasNoColon(n: int)
    ensures ':' !in Dec(n)
  {
    DecNatReadsBack(if n < 0 then -n else n);
  }

  /** A colon-free prefix is recovered from the text joined to it by a colon. */
  lemma ColonSplit(a: string, b: string, x: string, y: string)
    requires ':' !in a && ':' !in b
    requires a + ":" + x == b + ":" + y
    ensures a == b && x == y
  {
    var s := a + ":" + x;
    assert s[|a|] == ':' && s[|b|] == ':';
    assert forall i | 0 <= i < |a| :: s[i] == a[i];
    assert forall i | 0 <= i < |b| :: s[i] == b[i];
    assert |a| == |b|;
    assert a == s[..|a|] && b == s[..|b|];
    assert x == s[|a| + 1..] && y == s[|b| + 1..];
  }

  /** The text before the first colon. */
  function Family(s: string): string
  {
    if s == "" || s[0] == ':' then "" else [s[0]] + Family(s[1..])
  }

  lemma {:induction false} FamilyOfJoin(prefix: string, rest: string)
    requires ':' !in prefix
    ensures Family(prefix + ":" + rest) == prefix
  {
    if prefix != "" {
      FamilyOfJoin(prefix[1..], rest);
      assert (prefix + ":" + rest)[1..] == prefix[1..] + ":" + rest;
      assert prefix == [prefix[0]] + prefix[1..];
    }
  }

  /** Serialised payload fields, joined by commas. */
  function Payload(fields: seq<string>): string
  {
    if fields == [] then "" else if |fields| == 1 then fields[0] else fields[0] + "," + Payload(fields[1..])
  }
}
