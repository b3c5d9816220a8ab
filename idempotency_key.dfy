/** The idempotency key of an auto-scheduled flow run:
    "scheduled <deployment id> <date>". Ids and dates are rendered in decimal;
    neither rendering contains a space, which makes the key injective. */
module IdempotencyKey {
  import opened OrionTypes

  predicate IsDigit(c: char) {
    '0' <= c <= '9'
  }

  function DigitChar(d: nat): (c: char)
    requires d < 10
    ensures IsDigit(c) && c as int == '0' as int + d
  {
    ('0' as int + d) as char
  }

  /** Decimal rendering of a natural number, without leading zeros. */
  function NatText(n: nat): (s: string)
    ensures |s| >= 1
    ensures forall i :: 0 <= i < |s| ==> IsDigit(s[i])
    decreases n
  {
    if n < 10 then [DigitChar(n)] else NatText(n / 10) + [DigitChar(n % 10)]
  }

  /** Decimal rendering of an integer, with a leading '-' when negative. */
  function IntText(t: int): (s: string)
    ensures |s| >= 1 && ' ' !in s
    ensures (t < 0) == (s[0] == '-')
  {
    if t < 0 then "-" + NatText(-t) else NatText(t)
  }

  /** The key under which the run of deployment `deploymentId` at `date` is stored. */
  function Key(deploymentId: Id, date: Timestamp): string {
    "scheduled " + NatText(deploymentId) + " " + IntText(date)
  }

  lemma {:induction false} NatTextInjective(a: nat, b: nat)
    requires NatText(a) == NatText(b)
    ensures a == b
  {
    var sa, sb := NatText(a), NatText(b);
    if a < 10 && b < 10 {
      assert DigitChar(a) == sa[0] == sb[0] == DigitChar(b);
    } else if 10 <= a && 10 <= b {
      assert DigitChar(a % 10) == sa[|sa| - 1] == sb[|sb| - 1] == DigitChar(b % 10);
      assert NatText(a / 10) == sa[..|sa| - 1] == sb[..|sb| - 1] == NatText(b / 10);
      NatTextInjective(a / 10, b / 10);
    }
  }

  lemma IntTextInjective(s: int, t: int)
    requires IntText(s) == IntText(t)
    ensures s == t
  {
    if s < 0 {
      assert NatText(-s) == IntText(s)[1..] == IntText(t)[1..] == NatText(-t);
      NatTextInjective(-s, -t);
    } else {
      NatTextInjective(s, t);
    }
  }

  /** Two space-free words joined by a space can be told apart again. */
  lemma SplitAtSpace(a: string, x: string, b: string, y: string)
    requires ' ' !in a && ' ' !in b
    requires a + " " + x == b + " " + y
    ensures a == b && x == y
  {
    var s := a + " " + x;
    assert s[|a|] == ' ' && s[|b|] == ' ';
    assert a == s[..|a|] == b;
    assert x == s[|a| + 1..] == y;
  }

  /** Past its fixed prefix, the key is the two renderings joined by a space. */
  lemma KeyTail(d: Id, t: Timestamp)
    ensures |Key(d, t)| >= 10 && Key(d, t)[10..] == NatText(d) + " " + IntText(t)
    ensures ' ' !in NatText(d)
  {
    var tail := NatText(d) + " " + IntText(t);
    assert Key(d, t) == "scheduled " + tail;
  }

  /** The key identifies its deployment and date: equal keys come from the
      same pair, and the same pair always gives the same key. */
  lemma KeyInjective(d1: Id, t1: Timestamp, d2: Id, t2: Timestamp)
    ensures Key(d1, t1) == Key(d2, t2) <==> d1 == d2 && t1 == t2
  {
    if Key(d1, t1) == Key(d2, t2) {
      KeyTail(d1, t1);
      KeyTail(d2, t2);
      SplitAtSpace(NatText(d1), IntText(t1), NatText(d2), IntText(t2));
      NatTextInjective(d1, d2);
      IntTextInjective(t1, t2);
    }
  }
}
