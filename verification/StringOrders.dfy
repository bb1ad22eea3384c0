/** The order of texts, character by character. */
module StringOrders {

  predicate StringLess(s: string, t: string) {
    t != "" && (s == "" || s[0] < t[0] || (s[0] == t[0] && StringLess(s[1..], t[1..])))
  }

  lemma {:induction false} StringOrder(s: string, t: string)
    ensures !(StringLess(s, t) && StringLess(t, s))
    ensures s == t || StringLess(s, t) || StringLess(t, s)
    ensures !StringLess(s, s)
  {
    if s != "" && t != "" {
      StringOrder(s[1..], t[1..]);
      assert s == [s[0]] + s[1..] && t == [t[0]] + t[1..];
    }
    if s != "" {
      StringOrder(s[1..], s[1..]);
    }
  }

  lemma {:induction false} StringOrderIsTransitive(s: string, t: string, u: string)
    requires StringLess(s, t) && StringLess(t, u)
    ensures StringLess(s, u)
  {
    if s != "" && s[0] == t[0] && t[0] == u[0] {
      StringOrderIsTransitive(s[1..], t[1..], u[1..]);
    }
  }

  /** At the first difference the smaller character decides; a beginning comes before the whole. */
  predicate Earlier(s: string, t: string) {
    || (s <= t && s != t)
    || exists i | 0 <= i < |s| && i < |t| :: s[..i] == t[..i] && s[i] < t[i]
  }

  lemma {:induction false} StringLessIff(s: string, t: string)
    ensures StringLess(s, t) <==> Earlier(s, t)
  {
    if s != "" && t != "" {
      if s[0] == t[0] {
        StringLessIff(s[1..], t[1..]);
        TailsDiffer(s, t);
      } else {
        assert s[..0] == t[..0];
        forall i | 0 < i < |s| && i < |t| ensures s[..i] != t[..i] {
          assert s[..i][0] == s[0] && t[..i][0] == t[0];
        }
      }
    }
  }

  lemma TailsDiffer(s: string, t: string)
    requires s != "" && t != "" && s[0] == t[0]
    ensures Earlier(s[1..], t[1..]) <==> Earlier(s, t)
  {
    var u, v := s[1..], t[1..];
    assert s == [s[0]] + u && t == [s[0]] + v;
    forall i | 0 <= i < |u| && i < |v| ensures u[..i] == v[..i] <==> s[..i + 1] == t[..i + 1] {
      SameFront(s[0], u, v, i);
    }
    if i :| 0 <= i < |u| && i < |v| && u[..i] == v[..i] && u[i] < v[i] {
      assert s[..i + 1] == t[..i + 1] && s[i + 1] < t[i + 1];
    }
    if i :| 0 <= i < |s| && i < |t| && s[..i] == t[..i] && s[i] < t[i] {
      assert s[..i - 1 + 1] == t[..i - 1 + 1] && u[i - 1] < v[i - 1];
    }
  }

  lemma SameFront(c: char, u: string, v: string, i: nat)
    requires i <= |u| && i <= |v|
    ensures u[..i] == v[..i] <==> ([c] + u)[..i + 1] == ([c] + v)[..i + 1]
  {
    assert ([c] + u)[..i + 1] == [c] + u[..i] && ([c] + v)[..i + 1] == [c] + v[..i];
    assert ([c] + u[..i])[1..] == u[..i] && ([c] + v[..i])[1..] == v[..i];
  }
}
