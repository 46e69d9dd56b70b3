/**
 * String interpolation of a scalar (`"{$value}"`) and the meaning of the SQL
 * `LIKE` patterns the STARTS_WITH rule builds: `%` matches any run of
 * characters, `_` any single character, every other character itself (ISO SQL
 * LIKE with no escape character). MySQL and PostgreSQL also read `\` as an escape
 * by default; that is not modelled, so `\` counts as special below and the prefix
 * lemmas exclude it.
 */
module Text {
  import opened Query

  predicate IsDigit(c: char) { '0' <= c <= '9' }

  function DigitChar(d: nat): (c: char)
    requires d < 10
    ensures IsDigit(c)
  {
    (48 + d) as char
  }

  function DigitValue(c: char): (d: nat)
    requires IsDigit(c)
    ensures d < 10 && DigitChar(d) == c
  {
    (c as int - 48) as nat
  }

  /** The decimal digits of `n`, most significant first, without leading zeros. */
  function NatDigits(n: nat): (s: string)
    decreases n
  {
    if n < 10 then [DigitChar(n)] else NatDigits(n / 10) + [DigitChar(n % 10)]
  }

  /** How PHP renders an int inside a string: decimal, with a leading `-` when negative. */
  function DecimalString(n: int): string
  {
    if n < 0 then "-" + NatDigits(-n) else NatDigits(n)
  }

  /** The text `"{$value}"` produces for a scalar. */
  function Interpolate(v: Scalar): string
  {
    match v
    case IntScalar(n) => DecimalString(n)
    case StrScalar(s) => s
  }

  predicate AllDigits(s: string) { forall i :: 0 <= i < |s| ==> IsDigit(s[i]) }

  /** Reads a string of decimal digits back as a number. */
  function ParseDigits(s: string): nat
    requires AllDigits(s)
  {
    if s == [] then 0 else 10 * ParseDigits(s[..|s| - 1]) + DigitValue(s[|s| - 1])
  }

  /** Reads a decimal string with an optional leading `-` back as a number. */
  function ParseDecimal(s: string): int
    requires s != [] && (s[0] == '-' ==> AllDigits(s[1..])) && (s[0] != '-' ==> AllDigits(s))
  {
    if s[0] == '-' then -(ParseDigits(s[1..]) as int) else ParseDigits(s)
  }

  lemma {:induction false} NatDigitsRoundTrip(n: nat)
    ensures NatDigits(n) != [] && AllDigits(NatDigits(n))
    ensures ParseDigits(NatDigits(n)) == n
    decreases n
  {
    var s := NatDigits(n);
    if n >= 10 {
      NatDigitsRoundTrip(n / 10);
      assert s[..|s| - 1] == NatDigits(n / 10);
    }
  }

  /** Rendering an int is injective: the number can be read back from its text. */
  lemma {:induction false} DecimalStringRoundTrip(n: int)
    ensures var s := DecimalString(n);
      s != [] && (s[0] == '-' ==> AllDigits(s[1..])) && (s[0] != '-' ==> AllDigits(s))
      && ParseDecimal(s) == n
  {
    if n < 0 {
      NatDigitsRoundTrip(-n);
      assert DecimalString(n)[1..] == NatDigits(-n);
    } else {
      NatDigitsRoundTrip(n);
    }
  }

  /** The LIKE wildcards, and the backslash that MySQL and PostgreSQL read as an escape. */
  predicate IsWildcard(c: char) { c == '%' || c == '_' || c == '\\' }

  predicate NoWildcards(s: string) { forall i :: 0 <= i < |s| ==> !IsWildcard(s[i]) }

  /** The rendering of an int never holds a LIKE wildcard. */
  lemma DecimalStringHasNoWildcards(n: int)
    ensures NoWildcards(DecimalString(n))
  {
    DecimalStringRoundTrip(n);
  }

  /** SQL `LIKE`: does `subject` match `pattern`? */
  predicate LikeMatches(pattern: string, subject: string)
    decreases |pattern| + |subject|
  {
    if pattern == [] then subject == []
    else if pattern[0] == '%' then
      LikeMatches(pattern[1..], subject) || (subject != [] && LikeMatches(pattern, subject[1..]))
    else
      subject != [] && (pattern[0] == '_' || pattern[0] == subject[0])
      && LikeMatches(pattern[1..], subject[1..])
  }

  /** A lone `%` matches every subject. */
  lemma {:induction false} PercentMatchesAll(subject: string)
    ensures LikeMatches("%", subject)
    decreases |subject|
  {
    if subject != [] {
      PercentMatchesAll(subject[1..]);
    }
  }

  /**
   * The pattern `prefix%` matches exactly the subjects that start with `prefix`,
   * provided `prefix` holds no wildcard.
   */
  lemma {:induction false} LikePrefixMatchesStartsWith(prefix: string, subject: string)
    requires NoWildcards(prefix)
    ensures LikeMatches(prefix + "%", subject) <==> prefix <= subject
    decreases |prefix|
  {
    if prefix == [] {
      assert prefix + "%" == "%";
      PercentMatchesAll(subject);
    } else {
      assert (prefix + "%")[1..] == prefix[1..] + "%";
      if subject != [] {
        LikePrefixMatchesStartsWith(prefix[1..], subject[1..]);
      }
    }
  }

  /**
   * Without the no-wildcard condition the equivalence fails: the value "a_" is
   * not escaped, so its pattern "a_%" also matches "abc", which does not start with "a_".
   */
  lemma WildcardInPrefixBreaksStartsWith()
    ensures LikeMatches("a_" + "%", "abc") && !("a_" <= "abc")
  {
    var p := "a_" + "%";
    assert p == ['a', '_', '%'];
    assert p[1..] == ['_', '%'] && p[1..][1..] == ['%'];
    PercentMatchesAll("c");
    assert "abc"[1..] == "bc" && "bc"[1..] == "c";
    assert "abc"[1] != "a_"[1];
  }
}
