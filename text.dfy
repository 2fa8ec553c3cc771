/** Plain string helpers: `string.Join`, decimal rendering of counts and dotted-name shape. */
module Text {

  /** `string.Join(separator, parts)`: the parts in order with `separator` between neighbours. */
  function Join(parts: seq<string>, separator: string): string
  {
    if |parts| == 0 then ""
    else if |parts| == 1 then parts[0]
    else Join(parts[..|parts| - 1], separator) + separator + parts[|parts| - 1]
  }

  /** The first part is a prefix of the join. */
  lemma {:induction false} JoinStartsWithFirst(parts: seq<string>, separator: string)
    requires |parts| > 0
    ensures |parts[0]| <= |Join(parts, separator)|
    ensures Join(parts, separator)[..|parts[0]|] == parts[0]
  {
    if |parts| > 1 {
      var init := parts[..|parts| - 1];
      JoinStartsWithFirst(init, separator);
      assert init[0] == parts[0];
      var j := Join(init, separator);
      assert Join(parts, separator) == j + separator + parts[|parts| - 1];
      assert (j + separator + parts[|parts| - 1])[..|parts[0]|] == j[..|parts[0]|];
    }
  }

  /** The value of a decimal digit character. */
  function DigitValue(c: char): nat
    requires '0' <= c <= '9'
  {
    c as int - '0' as int
  }

  /** The character of a decimal digit. */
  function DigitChar(d: nat): (c: char)
    requires d < 10
    ensures '0' <= c <= '9' && DigitValue(c) == d
  {
    ('0' as int + d) as char
  }

  predicate IsDigits(s: string)
  {
    forall i :: 0 <= i < |s| ==> '0' <= s[i] <= '9'
  }

  /** The invariant-culture decimal text of a non-negative count, as `StringBuilder.Append(int)` writes it. */
  function Decimal(n: nat): (r: string)
    ensures |r| > 0 && IsDigits(r)
    ensures n > 0 ==> r[0] != '0'
  {
    if n < 10 then [DigitChar(n)] else Decimal(n / 10) + [DigitChar(n % 10)]
  }

  /** Reads a string of digits back as a number. */
  function DecimalValue(s: string): nat
    requires IsDigits(s)
  {
    if |s| == 0 then 0 else DecimalValue(s[..|s| - 1]) * 10 + DigitValue(s[|s| - 1])
  }

  /** Rendering a count in decimal loses nothing: it reads back as the same count. */
  lemma {:induction false} DecimalRoundTrip(n: nat)
    ensures DecimalValue(Decimal(n)) == n
  {
    var r := Decimal(n);
    if n >= 10 {
      DecimalRoundTrip(n / 10);
      assert r[..|r| - 1] == Decimal(n / 10);
    }
  }

  /** A name segment as the compiler gives it: non-empty and without a dot. */
  predicate IsSimpleName(s: string)
  {
    |s| > 0 && forall i :: 0 <= i < |s| ==> s[i] != '.'
  }

  /** A dotted path: no leading or trailing dot and no two dots in a row. */
  predicate IsDottedPath(s: string)
  {
    && (|s| > 0 ==> s[0] != '.' && s[|s| - 1] != '.')
    && forall i :: 0 <= i < |s| - 1 ==> !(s[i] == '.' && s[i + 1] == '.')
  }

  /** Dot-joining simple names gives a dotted path; it is empty exactly when there are no names. */
  lemma {:induction false} JoinSimpleNamesIsDottedPath(parts: seq<string>)
    requires forall i :: 0 <= i < |parts| ==> IsSimpleName(parts[i])
    ensures IsDottedPath(Join(parts, "."))
    ensures (|Join(parts, ".")| == 0) == (|parts| == 0)
  {
    if |parts| > 1 {
      var init := parts[..|parts| - 1];
      var last := parts[|parts| - 1];
      JoinSimpleNamesIsDottedPath(init);
      var j := Join(init, ".");
      var r := j + "." + last;
      assert Join(parts, ".") == r;
      assert IsSimpleName(last);
      forall i | 0 <= i < |r| - 1
        ensures !(r[i] == '.' && r[i + 1] == '.')
      {
        if i < |j| - 1 {
          assert r[i] == j[i] && r[i + 1] == j[i + 1];
        } else if i == |j| - 1 {
          assert r[i] == j[|j| - 1];
        } else {
          assert r[i + 1] == last[i + 1 - |j| - 1];
        }
      }
      assert r[|r| - 1] == last[|last| - 1];
    } else if |parts| == 1 {
      assert Join(parts, ".") == parts[0];
    }
  }
}
