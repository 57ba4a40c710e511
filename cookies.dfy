/** Cookie names used by the handlers. A cookie jar is the set of names a
    request carries; values and expiry are not modelled. */
module Cookies {

  const AdminCookie: string := "admin_logged_in"
  const VotedPrefix: string := "voted_"

  function DigitChar(d: nat): (c: char)
    requires d < 10
    ensures '0' <= c <= '9'
  {
    ('0' as int + d) as char
  }

  /** Decimal rendering of a natural number, as an f-string renders an int. */
  function NatToString(n: nat): (s: string)
    ensures |s| >= 1
    ensures n >= 10 ==> |s| >= 2
    ensures forall i :: 0 <= i < |s| ==> '0' <= s[i] <= '9'
  {
    if n < 10 then [DigitChar(n)] else NatToString(n / 10) + [DigitChar(n % 10)]
  }

  /** The cookie that marks "already voted in poll `pollId`". */
  function VotedCookie(pollId: nat): (c: string)
    ensures |c| > |VotedPrefix| && c[..|VotedPrefix|] == VotedPrefix
  {
    VotedPrefix + NatToString(pollId)
  }

  lemma {:induction false} NatToStringInjective(a: nat, b: nat)
    requires NatToString(a) == NatToString(b)
    ensures a == b
  {
    var s := NatToString(a);
    if a < 10 && b < 10 {
      assert DigitChar(a) == s[0] == DigitChar(b);
      assert DigitChar(a) as int == '0' as int + a;
    } else if a >= 10 && b >= 10 {
      var n := |s|;
      var qa, ra, qb, rb := a / 10, a % 10, b / 10, b % 10;
      assert s == NatToString(qa) + [DigitChar(ra)] == NatToString(qb) + [DigitChar(rb)];
      assert DigitChar(ra) == s[n - 1] == DigitChar(rb);
      assert DigitChar(ra) as int == '0' as int + ra && DigitChar(rb) as int == '0' as int + rb;
      assert NatToString(qa) == s[..n - 1] == NatToString(qb);
      NatToStringInjective(qa, qb);
      assert a == 10 * qa + ra && b == 10 * qb + rb;
    }
  }

  /** Distinct polls have distinct vote cookies: voting in one poll never
      blocks voting in another. */
  lemma {:induction false} VotedCookieInjective(p: nat, q: nat)
    ensures VotedCookie(p) == VotedCookie(q) <==> p == q
  {
    if VotedCookie(p) == VotedCookie(q) {
      assert NatToString(p) == VotedCookie(p)[|VotedPrefix|..] == VotedCookie(q)[|VotedPrefix|..] == NatToString(q);
      NatToStringInjective(p, q);
    }
  }

  /** No vote cookie is the admin cookie: voting never logs anyone in. */
  lemma {:induction false} VotedCookieIsNotAdmin(p: nat)
    ensures VotedCookie(p) != AdminCookie
  {
    assert VotedCookie(p)[0] == 'v' != AdminCookie[0];
  }
}
