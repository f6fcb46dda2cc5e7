/** Container names: the decimal index behind a fixed prefix, and what the substring test on a listing of names finds. */
module PoolNames {
  import opened Sequences

  function Digit(d: nat): char
    requires d < 10
  {
    "0123456789"[d]
  }

  function Decimal(n: nat): (s: string)
    ensures |s| > 0
    ensures forall k :: 0 <= k < |s| ==> '0' <= s[k] <= '9'
  {
    if n < 10 then [Digit(n)] else Decimal(n / 10) + [Digit(n % 10)]
  }

  const Prefix := "code-eval-persistent-"

  function Name(index: nat): string {
    Prefix + Decimal(index)
  }

  lemma {:induction false} DecimalLength(n: nat)
    ensures |Decimal(n)| == 1 <==> n < 10
  {
  }

  /** Different indexes have different names. */
  lemma {:induction false} DecimalIsInjective(m: nat, n: nat)
    requires Decimal(m) == Decimal(n)
    ensures m == n
  {
    DecimalLength(m);
    DecimalLength(n);
    if m >= 10 {
      var a, b := Decimal(m / 10), Decimal(n / 10);
      assert (a + [Digit(m % 10)])[..|Decimal(m)| - 1] == a;
      assert (b + [Digit(n % 10)])[..|Decimal(n)| - 1] == b;
      DecimalIsInjective(m / 10, n / 10);
      assert Digit(m % 10) == Decimal(m)[|Decimal(m)| - 1] == Digit(n % 10);
    }
  }

  /** The first letter of the prefix stands nowhere else in a name. */
  lemma StartsOnlyAtZero(name: nat, k: nat)
    requires k < |Name(name)|
    ensures Name(name)[k] == 'c' <==> k == 0
  {
    if k >= |Prefix| {
      assert Name(name)[k] == Decimal(name)[k - |Prefix|];
    } else {
      assert Name(name)[k] == Prefix[k];
    }
  }

  /** One name occurs in another exactly when its index is written as a prefix of the other index. */
  lemma NameInName(needle: nat, name: nat)
    ensures Contains(Name(name), Name(needle)) <==> Decimal(needle) <= Decimal(name)
  {
    var s, part := Name(name), Name(needle);
    assert part[|Prefix|..] == Decimal(needle) && s[|Prefix|..] == Decimal(name);
    if Decimal(needle) <= Decimal(name) {
      assert part <= s[0..];
    }
    if Contains(s, part) {
      var k :| 0 <= k <= |s| && part <= s[k..];
      assert part[0] == 'c' && s[k..][0] == s[k];
      StartsOnlyAtZero(name, k);
      assert part <= s;
      assert part[|Prefix|..] <= s[|Prefix|..];
    }
  }

  /** What `udocker ps -a` is taken to tell: the name occurs in the name of some existing container. */
  ghost predicate Listed(existing: set<nat>, index: nat) {
    exists e | e in existing :: Contains(Name(e), Name(index))
  }

  lemma ExistingIsListed(existing: set<nat>, index: nat)
    requires index in existing
    ensures Listed(existing, index)
  {
    NameInName(index, index);
  }

  lemma ListingGrows(existing: set<nat>, more: set<nat>, index: nat)
    requires existing <= more && Listed(existing, index)
    ensures Listed(more, index)
  {
    var e :| e in existing && Contains(Name(e), Name(index));
    assert e in more;
  }

  /** A number written as the beginning of another is that number or at most a tenth of it; zero begins nothing else. */
  lemma {:induction false} PrefixIsTenth(i: nat, e: nat)
    requires Decimal(i) <= Decimal(e)
    ensures i == e || (i > 0 && 10 * i <= e)
  {
    DecimalLength(i);
    DecimalLength(e);
    if |Decimal(i)| == |Decimal(e)| {
      assert Decimal(i) == Decimal(e);
      DecimalIsInjective(i, e);
    } else {
      var init := Decimal(e / 10);
      assert Decimal(e) == init + [Digit(e % 10)];
      assert Decimal(i) <= init;
      PrefixIsTenth(i, e / 10);
    }
  }

  /** The listing vouches for an index that does not exist only through an index at least ten times as large. */
  lemma ListedIndex(existing: set<nat>, index: nat) returns (e: nat)
    requires Listed(existing, index)
    ensures e in existing && (e == index || (index > 0 && 10 * index <= e))
  {
    e :| e in existing && Contains(Name(e), Name(index));
    NameInName(index, e);
    PrefixIsTenth(index, e);
  }

  lemma ListedWithTenfold(index: nat)
    requires index > 0
    ensures Listed({10 * index}, index)
  {
    NameInName(index, 10 * index);
    assert Decimal(10 * index) == Decimal(index) + [Digit(0)];
  }
}
