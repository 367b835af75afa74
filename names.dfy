/**
  File names and identifier strings as the OID step plugin handles them:
  the last component of a path, the split of a file name at its last dot,
  the decimal text of an identifier, and the test that decides whether a
  catalogue identifier is already a final OID.
 */
module Names {

  /** Index of the last occurrence of `c` in `s`, or -1 (Java's String.lastIndexOf). */
  function LastIndexOf(s: string, c: char): (r: int)
    ensures -1 <= r < |s|
    ensures r >= 0 ==> s[r] == c
    ensures forall k :: r < k < |s| ==> s[k] != c
    ensures r == -1 <==> c !in s
  {
    if |s| == 0 then -1
    else if s[|s| - 1] == c then |s| - 1
    else LastIndexOf(s[..|s| - 1], c)
  }

  /** The path with every trailing separator removed. */
  function StripTrailingSeparators(path: string): (r: string)
    ensures r == [] || r[|r| - 1] != '/'
    ensures r <= path
  {
    if |path| > 0 && path[|path| - 1] == '/' then StripTrailingSeparators(path[..|path| - 1])
    else path
  }

  /** The last name element of a path (Path.getFileName().toString()). */
  function FileName(path: string): (r: string)
    ensures '/' !in r
    ensures '/' !in path ==> r == path
  {
    var p := StripTrailingSeparators(path);
    p[LastIndexOf(p, '/') + 1..]
  }

  /** `r` is the last element of `p`: a separator-free suffix of `p` that starts at the beginning or right after a separator. */
  predicate LastElement(p: string, r: string)
  {
    && |r| <= |p| && p[|p| - |r|..] == r && '/' !in r
    && (|r| == |p| || p[|p| - |r| - 1] == '/')
  }

  /** FileName is the last element of the path once its trailing separators are gone. */
  lemma {:induction false} FileNameIsLastElement(path: string)
    ensures LastElement(StripTrailingSeparators(path), FileName(path))
  {
    var p := StripTrailingSeparators(path);
    var i := LastIndexOf(p, '/') + 1;
    assert FileName(path) == p[i..];
    assert |p| - |p[i..]| == i;
  }

  /** A path has one last element: whatever satisfies LastElement is the part after the path's last separator. */
  lemma {:induction false} LastElementUnique(p: string, r: string)
    requires LastElement(p, r)
    ensures r == p[LastIndexOf(p, '/') + 1..]
  {
    var i := |p| - |r|;
    forall k | i <= k < |p| ensures p[k] != '/' {
      assert p[k] == r[k - i];
    }
    var last := LastIndexOf(p, '/');
    if last >= 0 {
      assert p[last] == '/';
    }
    assert last < i;
    if i > 0 {
      assert p[i - 1] == '/';
      assert last >= i - 1;
    }
    assert p[last + 1..] == p[i..] == r;
  }

  /** A file name split into the part before its last dot and the part after it. */
  datatype NameParts = NameParts(base: string, ext: string)

  /** Split at the last '.'; a name without a dot is all base and has the empty extension. */
  function SplitName(name: string): (r: NameParts)
    ensures '.' !in r.ext
    ensures '.' in name ==> name == r.base + "." + r.ext
    ensures '.' !in name ==> r == NameParts(name, "")
  {
    var dot := LastIndexOf(name, '.');
    if dot == -1 then NameParts(name, "")
    else
      assert name == name[..dot] + "." + name[dot + 1..];
      NameParts(name[..dot], name[dot + 1..])
  }

  /** Joining a base and a dot-free extension and splitting again gives both back. */
  lemma {:induction false} SplitJoin(base: string, ext: string)
    requires '.' !in ext
    ensures SplitName(base + "." + ext) == NameParts(base, ext)
  {
    var name := base + "." + ext;
    assert name[|base|] == '.';
    assert forall k :: |base| < k < |name| ==> name[k] == ext[k - |base| - 1];
    assert LastIndexOf(name, '.') == |base|;
    assert name[..|base|] == base;
    assert name[|base| + 1..] == ext;
  }

  /** The name `<oid>.<ext>` that a renamed file or page receives. */
  function Dotted(oid: string, ext: string): string
  {
    oid + "." + ext
  }

  predicate IsDigit(c: char)
  {
    '0' <= c <= '9'
  }

  predicate AllDigits(s: string)
  {
    forall k :: 0 <= k < |s| ==> IsDigit(s[k])
  }

  /**
    The work identifier is final when its text matches the regular
    expression `\d+` (ASCII digits only) and has at most nine characters.
   */
  predicate IsFinalWorkId(value: string)
  {
    |value| > 0 && AllDigits(value) && |value| <= 9
  }

  function DigitChar(d: nat): (c: char)
    requires d < 10
    ensures IsDigit(c)
  {
    (48 + d) as char
  }

  /** The decimal text of a non-negative number (String.valueOf on a long). */
  function Decimal(n: nat): (s: string)
    ensures |s| > 0 && AllDigits(s)
    ensures '.' !in s && '/' !in s
    ensures s[0] == '0' ==> n == 0
  {
    if n < 10 then [DigitChar(n)]
    else Decimal(n / 10) + [DigitChar(n % 10)]
  }

  /** The number a string of ASCII digits denotes. */
  function DigitsValue(s: string): nat
    requires AllDigits(s)
  {
    if s == [] then 0
    else 10 * DigitsValue(s[..|s| - 1]) + (s[|s| - 1] as int - 48)
  }

  /** Reading the decimal text back gives the number: distinct tokens get distinct identifiers. */
  lemma {:induction false} DecimalRoundTrip(n: nat)
    ensures DigitsValue(Decimal(n)) == n
  {
    if n >= 10 {
      var s := Decimal(n);
      assert s[..|s| - 1] == Decimal(n / 10);
      DecimalRoundTrip(n / 10);
    }
  }

  lemma {:induction false} DecimalInjective(m: nat, n: nat)
    ensures Decimal(m) == Decimal(n) <==> m == n
  {
    DecimalRoundTrip(m);
    DecimalRoundTrip(n);
  }

  function Pow10(k: nat): (p: nat)
    ensures p >= 1
  {
    if k == 0 then 1 else 10 * Pow10(k - 1)
  }

  /** The decimal text of `n` has at most `k` characters exactly when `n < 10^k`. */
  lemma {:induction false} DecimalLength(n: nat, k: nat)
    requires k >= 1
    ensures |Decimal(n)| <= k <==> n < Pow10(k)
  {
    if n >= 10 {
      if k == 1 {
        assert |Decimal(n)| >= 2;
      } else {
        DecimalLength(n / 10, k - 1);
        assert n / 10 < Pow10(k - 1) <==> n < Pow10(k);
      }
    } else {
      assert Pow10(k) >= 10 by {
        assert Pow10(k) == 10 * Pow10(k - 1);
      }
    }
  }

  /** A token written as the work identifier counts as final exactly when it is below 10^9. */
  lemma {:induction false} DecimalIsFinal(n: nat)
    ensures IsFinalWorkId(Decimal(n)) <==> n < 1_000_000_000
  {
    DecimalLength(n, 9);
    assert Pow10(9) == 1_000_000_000;
  }

  /** A string of k digits denotes a number below 10^k. */
  lemma {:induction false} DigitsValueBound(s: string)
    requires AllDigits(s)
    ensures DigitsValue(s) < Pow10(|s|)
  {
    if s != [] {
      var init := s[..|s| - 1];
      assert AllDigits(init) by {
        forall k | 0 <= k < |init| ensures IsDigit(init[k]) {
          assert init[k] == s[k];
        }
      }
      DigitsValueBound(init);
      assert Pow10(|s|) == 10 * Pow10(|init|);
    }
  }

  lemma {:induction false} Pow10Monotone(j: nat, k: nat)
    requires j <= k
    ensures Pow10(j) <= Pow10(k)
  {
    if j < k {
      Pow10Monotone(j, k - 1);
    }
  }

  /** A final work identifier, leading zeros and all, denotes a number below 10^9. */
  lemma {:induction false} FinalWorkIdBelow(value: string)
    requires IsFinalWorkId(value)
    ensures DigitsValue(value) < 1_000_000_000
  {
    DigitsValueBound(value);
    Pow10Monotone(|value|, 9);
    assert Pow10(9) == 1_000_000_000;
  }
}
