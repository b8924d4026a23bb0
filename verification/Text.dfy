/** Go's byte strings: splitting, joining, and decimal numbers. */
module Text {

  datatype Option<+T> = None | Some(value: T)

  newtype byte = x: int | 0 <= x < 256

  /** A Go string is a sequence of bytes. */
  type Bytes = seq<byte>

  const INT64_MIN := -0x8000_0000_0000_0000
  const INT64_MAX := 0x7FFF_FFFF_FFFF_FFFF

  type int64 = x: int | INT64_MIN <= x <= INT64_MAX

  // ----- Split and join -----

  function Index<T(==)>(s: seq<T>, sep: T): (i: nat)
    ensures i <= |s| && sep !in s[..i] && (i < |s| ==> s[i] == sep)
  {
    if s == [] || s[0] == sep then 0 else 1 + Index(s[1..], sep)
  }

  /** `strings.SplitN` with a one-byte separator and a positive limit. */
  function SplitN<T(==)>(s: seq<T>, sep: T, n: nat): (parts: seq<seq<T>>)
    requires n > 0
    ensures 0 < |parts| <= n
    decreases n
  {
    var i := Index(s, sep);
    if n == 1 || i == |s| then [s] else [s[..i]] + SplitN(s[i + 1..], sep, n - 1)
  }

  /** `strings.Split`: no limit. */
  function Split<T(==)>(s: seq<T>, sep: T): (parts: seq<seq<T>>)
    ensures parts != []
    decreases |s|
  {
    var i := Index(s, sep);
    if i == |s| then [s] else [s[..i]] + Split(s[i + 1..], sep)
  }

  function Min(a: nat, b: nat): (m: nat)
    ensures m <= a && m <= b && (m == a || m == b)
  {
    if a < b then a else b
  }

  /** `strings.Join` */
  function Join<T>(parts: seq<seq<T>>, sep: seq<T>): seq<T> {
    if parts == [] then [] else if |parts| == 1 then parts[0] else parts[0] + sep + Join(parts[1..], sep)
  }

  lemma {:induction false} JoinSnoc<T>(parts: seq<seq<T>>, sep: seq<T>, last: seq<T>)
    ensures Join(parts + [last], sep) == if parts == [] then last else Join(parts, sep) + sep + last
  {
    if parts == [] {
    } else if |parts| == 1 {
      assert (parts + [last])[1..] == [last];
    } else {
      JoinSnoc(parts[1..], sep, last);
      assert (parts + [last])[1..] == parts[1..] + [last];
      assert Join(parts + [last], sep)
          == parts[0] + sep + (Join(parts[1..], sep) + sep + last)
          == (parts[0] + sep + Join(parts[1..], sep)) + sep + last;
    }
  }

  lemma {:induction false} IndexAfter<T>(a: seq<T>, sep: T, b: seq<T>)
    requires sep !in a
    ensures Index(a + [sep] + b, sep) == |a|
  {
    if a != [] {
      IndexAfter(a[1..], sep, b);
      assert (a + [sep] + b)[1..] == a[1..] + [sep] + b;
    }
  }

  lemma {:induction false} IndexAbsent<T>(a: seq<T>, sep: T)
    requires sep !in a
    ensures Index(a, sep) == |a|
  {
    if a != [] {
      IndexAbsent(a[1..], sep);
    }
  }

  /** Splitting undoes joining, for every non-empty list of parts without the separator. */
  lemma {:induction false} SplitOfJoin<T>(parts: seq<seq<T>>, sep: T)
    requires parts != [] && forall i :: 0 <= i < |parts| ==> sep !in parts[i]
    ensures Split(Join(parts, [sep]), sep) == parts
  {
    if |parts| == 1 {
      IndexAbsent(parts[0], sep);
    } else {
      var rest := Join(parts[1..], [sep]);
      SplitOfJoin(parts[1..], sep);
      IndexAfter(parts[0], sep, rest);
      var s := parts[0] + [sep] + rest;
      assert s[|parts[0]| + 1..] == rest && s[..|parts[0]|] == parts[0];
    }
  }

  /** Cutting off the first part, if there is room for another. */
  lemma SplitNFirst<T>(a: seq<T>, sep: T, b: seq<T>, n: nat)
    requires sep !in a && n > 1
    ensures SplitN(a + [sep] + b, sep, n) == [a] + SplitN(b, sep, n - 1)
  {
    IndexAfter(a, sep, b);
    var s := a + [sep] + b;
    assert s[|a| + 1..] == b && s[..|a|] == a;
  }

  lemma JoinCons<T>(first: seq<T>, rest: seq<seq<T>>, sep: seq<T>)
    requires rest != []
    ensures Join([first] + rest, sep) == first + sep + Join(rest, sep)
  {
    assert ([first] + rest)[1..] == rest;
  }

  /** The parts hold no separator. */
  lemma {:induction false} PartsArePlain<T>(s: seq<T>, sep: T)
    ensures forall i :: 0 <= i < |Split(s, sep)| ==> sep !in Split(s, sep)[i]
    decreases |s|
  {
    var i := Index(s, sep);
    if i == |s| {
      assert s[..i] == s;
    } else {
      PartsArePlain(s[i + 1..], sep);
    }
  }

  /** And joining undoes splitting, for every text. */
  lemma {:induction false} JoinOfSplit<T>(s: seq<T>, sep: T)
    ensures Join(Split(s, sep), [sep]) == s
    ensures forall i :: 0 <= i < |Split(s, sep)| ==> sep !in Split(s, sep)[i]
    decreases |s|
  {
    PartsArePlain(s, sep);
    var i := Index(s, sep);
    if i == |s| {
      assert s[..i] == s;
    } else {
      var rest := Split(s[i + 1..], sep);
      JoinOfSplit(s[i + 1..], sep);
      assert Split(s, sep) == [s[..i]] + rest;
      hide Split, Join;
      JoinCons(s[..i], rest, [sep]);
      assert s == s[..i] + [sep] + s[i + 1..];
    }
  }

  /** Cutting in two stops at the first separator. */
  lemma SplitNTwo<T>(s: seq<T>, sep: T, n: nat)
    requires n > 1 && |SplitN(s, sep, n)| > 1
    ensures var i := Index(s, sep); i < |s| && s == s[..i] + [sep] + s[i + 1..]
    ensures var i := Index(s, sep); SplitN(s, sep, n) == [s[..i]] + SplitN(s[i + 1..], sep, n - 1)
  {
  }

  // ----- Decimal numbers -----

  predicate IsDigit(b: byte) {
    48 <= b <= 57
  }

  /** The decimal digits of `n`. */
  function Digits(n: nat): (s: Bytes)
    ensures s != [] && forall i :: 0 <= i < |s| ==> IsDigit(s[i])
  {
    if n < 10 then [(48 + n) as byte] else Digits(n / 10) + [(48 + n % 10) as byte]
  }

  /** `strconv.FormatInt(n, 10)`. */
  function FormatInt(n: int): (s: Bytes)
    ensures s != [] && forall i :: 0 <= i < |s| ==> IsDigit(s[i]) || s[i] == 45
  {
    if n < 0 then [45] + Digits(-n) else Digits(n)
  }

  predicate AllDigits(s: Bytes) {
    forall i :: 0 <= i < |s| ==> IsDigit(s[i])
  }

  function DigitsValue(s: Bytes): (n: nat)
    requires AllDigits(s)
  {
    if s == [] then 0
    else
      assert IsDigit(s[|s| - 1]);
      DigitsValue(s[..|s| - 1]) * 10 + (s[|s| - 1] as int - 48)
  }

  /** `strconv.ParseInt(s, 10, 64)`: an optional sign, at least one digit, nothing else, and a value
      that fits 64 bits. */
  function ParseInt(s: Bytes): (r: Option<int>)
    ensures r.Some? ==> INT64_MIN <= r.value <= INT64_MAX
  {
    var negative := s != [] && s[0] == 45;
    var digits := if s != [] && (s[0] == 45 || s[0] == 43) then s[1..] else s;
    if digits == [] || !AllDigits(digits) then None
    else
      var m: int := DigitsValue(digits);
      var n := if negative then -m else m;
      if INT64_MIN <= n <= INT64_MAX then Some(n) else None
  }

  lemma {:induction false} ValueOfDigits(n: nat)
    ensures DigitsValue(Digits(n)) == n
  {
    if n >= 10 {
      ValueOfDigits(n / 10);
      var s := Digits(n);
      assert s[..|s| - 1] == Digits(n / 10);
    } else {
      assert Digits(n)[..0] == [];
    }
  }

  /** Every 64-bit number survives printing and parsing. */
  lemma ParseOfFormat(n: int64)
    ensures ParseInt(FormatInt(n)) == Some(n)
  {
    hide Digits, DigitsValue;
    if n < 0 {
      var m: int := n;
      ValueOfDigits(-m);
      assert ([45] + Digits(-m))[1..] == Digits(-m);
    } else {
      ValueOfDigits(n);
    }
  }

  /** Printing is decimal: one digit, or the digits of a tenth and one more; a minus sign in front. */
  lemma FormatsDecimal(n: int)
    ensures 0 <= n < 10 ==> FormatInt(n) == [(48 + n) as byte]
    ensures n >= 10 ==> FormatInt(n) == FormatInt(n / 10) + [(48 + n % 10) as byte]
    ensures n < 0 ==> FormatInt(n) == [45] + FormatInt(-n)
  {
  }

  /** A digit is itself; one more digit is ten times as much and it. A minus sign negates, a plus sign does
      nothing. Nothing else than that is a number, nor is what 64 bits do not hold. */
  lemma ParsesDecimal(s: Bytes, d: nat)
    requires s != [] && (forall i :: 0 <= i < |s| ==> 48 <= s[i] <= 57) && d < 10
    ensures ParseInt([(48 + d) as byte]) == Some(d)
    ensures var t := s + [(48 + d) as byte];
            && (ParseInt(t).Some? ==> ParseInt(s).Some? && ParseInt(t).value == 10 * ParseInt(s).value + d)
            && (ParseInt(s).Some? && 10 * ParseInt(s).value + d <= 9_223_372_036_854_775_807 ==> ParseInt(t).Some?)
            && ParseInt([43] + s) == ParseInt(s)
            && (ParseInt(s).Some? ==> ParseInt([45] + s) == Some(-ParseInt(s).value))
  {
    var t, one := s + [(48 + d) as byte], [(48 + d) as byte];
    assert one[..0] == [] && DigitsValue([]) == 0;
    assert t[..|s|] == s && DigitsValue(t) == DigitsValue(s) * 10 + d;
    assert ([43] + s)[1..] == s && ([45] + s)[1..] == s;
    assert ParseInt(s) == if DigitsValue(s) <= INT64_MAX then Some(DigitsValue(s)) else None;
  }

  /** What ParseInt takes: an optional sign and digits. */
  lemma ParsesOnlyDecimal(s: Bytes)
    requires ParseInt(s).Some?
    ensures -9_223_372_036_854_775_808 <= ParseInt(s).value <= 9_223_372_036_854_775_807
    ensures s != [] && var k := if s[0] == 43 || s[0] == 45 then 1 else 0;
                       k < |s| && forall i :: k <= i < |s| ==> 48 <= s[i] <= 57
  {
    if s[0] == 43 || s[0] == 45 {
      assert AllDigits(s[1..]);
      assert forall i :: 1 <= i < |s| ==> s[i] == s[1..][i - 1];
    } else {
      assert AllDigits(s);
    }
  }
}
