/** Optional values: what a DOM query or an attribute read returns when nothing is there. */
module Wrappers {
  datatype Option<+T> = None | Some(value: T) {
    /** The value, or `default` when there is none (JavaScript `x || default` on a string). */
    function GetOr(default: T): T {
      match this
      case Some(v) => v
      case None => default
    }
  }
}

/** The string operations the test logic relies on: JavaScript `startsWith`, `includes`,
    ASCII `toLowerCase`, and the decimal rendering of a number in a template string. */
module Text {

  /** `s.startsWith(p)`. */
  predicate StartsWith(s: string, p: string) {
    |p| <= |s| && s[..|p|] == p
  }

  /** `t` occurs in `s` starting at offset `i`. */
  ghost predicate OccursAt(s: string, t: string, i: int) {
    0 <= i && i + |t| <= |s| && s[i..i + |t|] == t
  }

  /** `s.includes(t)`: `t` is a substring of `s`; the empty string is a substring of everything. */
  predicate Contains(s: string, t: string)
    decreases |s|
  {
    StartsWith(s, t) || (|s| > 0 && Contains(s[1..], t))
  }

  /** `Contains` agrees with the definition of a substring by offsets. */
  lemma {:induction false} ContainsIffOccurs(s: string, t: string)
    ensures Contains(s, t) <==> exists i :: OccursAt(s, t, i)
    decreases |s|
  {
    if StartsWith(s, t) {
      assert OccursAt(s, t, 0);
    } else if |s| == 0 {
    } else {
      ContainsIffOccurs(s[1..], t);
      if Contains(s[1..], t) {
        var i :| OccursAt(s[1..], t, i);
        assert s[i + 1..i + 1 + |t|] == s[1..][i..i + |t|];
        assert OccursAt(s, t, i + 1);
      } else {
        forall i | OccursAt(s, t, i) && i > 0 ensures OccursAt(s[1..], t, i - 1) {
          assert s[1..][i - 1..i - 1 + |t|] == s[i..i + |t|];
        }
      }
    }
  }

  /** A string contains every string that occurs at one of its offsets. */
  lemma ContainsAt(s: string, t: string, i: int)
    requires OccursAt(s, t, i)
    ensures Contains(s, t)
  {
    ContainsIffOccurs(s, t);
  }

  /** A string never contains a longer one. */
  lemma {:induction false} ContainsLonger(s: string, t: string)
    requires |s| < |t|
    ensures !Contains(s, t)
    decreases |s|
  {
    if |s| > 0 {
      ContainsLonger(s[1..], t);
    }
  }

  /** Between strings of equal length, containment is equality. */
  lemma ContainsSameLength(s: string, t: string)
    requires |s| == |t|
    ensures Contains(s, t) <==> s == t
  {
    ContainsIffOccurs(s, t);
    if Contains(s, t) {
      var i :| OccursAt(s, t, i);
      assert i == 0 && s[..|s|] == s;
    } else {
      assert s[..|s|] == s;
      assert s != t || OccursAt(s, t, 0);
    }
  }

  /** A string that lacks one of the characters of `t` does not contain `t`. */
  lemma MissingChar(s: string, t: string, k: int)
    requires 0 <= k < |t| && t[k] !in s
    ensures !Contains(s, t)
  {
    ContainsIffOccurs(s, t);
  }

  /** A prefix is a substring. */
  lemma StartsWithContains(s: string, p: string)
    requires StartsWith(s, p)
    ensures Contains(s, p)
  {
  }

  /** Whatever `a` contains, `a + b` and `b + a` contain too. */
  lemma ContainsInConcat(a: string, b: string, t: string)
    requires Contains(a, t)
    ensures Contains(a + b, t) && Contains(b + a, t)
  {
    ContainsIffOccurs(a, t);
    var i :| OccursAt(a, t, i);
    assert (a + b)[i..i + |t|] == a[i..i + |t|];
    ContainsAt(a + b, t, i);
    assert (b + a)[|b| + i..|b| + i + |t|] == a[i..i + |t|];
    ContainsAt(b + a, t, |b| + i);
  }

  /** ASCII `toLowerCase` of one character: 'A'..'Z' become 'a'..'z', all else is kept. */
  function LowerChar(c: char): (d: char)
    ensures 'A' <= c <= 'Z' ==> 'a' <= d <= 'z' && d as int - c as int == 32
    ensures !('A' <= c <= 'Z') ==> d == c
  {
    if 'A' <= c <= 'Z' then (c as int + 32) as char else c
  }

  /** ASCII `toLowerCase`. */
  function Lower(s: string): (r: string)
    ensures |r| == |s|
    ensures forall i :: 0 <= i < |s| ==> r[i] == LowerChar(s[i])
    ensures forall i :: 0 <= i < |r| ==> !('A' <= r[i] <= 'Z')
  {
    seq(|s|, i requires 0 <= i < |s| => LowerChar(s[i]))
  }

  /** Lower-casing twice is lower-casing once. */
  lemma LowerIdempotent(s: string)
    ensures Lower(Lower(s)) == Lower(s)
  {
  }

  /** Lower-casing commutes with slicing. */
  lemma LowerSlice(s: string, i: int, j: int)
    requires 0 <= i <= j <= |s|
    ensures Lower(s)[i..j] == Lower(s[i..j])
  {
  }

  /** An exact (case-sensitive) match is also a case-insensitive match. */
  lemma ContainsLower(s: string, t: string)
    requires Contains(s, t)
    ensures Contains(Lower(s), Lower(t))
  {
    ContainsIffOccurs(s, t);
    var i :| OccursAt(s, t, i);
    LowerSlice(s, i, i + |t|);
    ContainsAt(Lower(s), Lower(t), i);
  }

  /** `text.toLowerCase().includes(a.toLowerCase())` for some alternative `a`: a
      case-insensitive regular expression `/A|B|.../i` of plain literals, or `some(...)`. */
  function AnyCaseInsensitive(text: string, alternatives: seq<string>): (found: bool)
    ensures found <==> exists i :: 0 <= i < |alternatives| && Contains(Lower(text), Lower(alternatives[i]))
  {
    if |alternatives| == 0 then false
    else
      var rest := AnyCaseInsensitive(text, alternatives[1..]);
      assert forall i :: 1 <= i < |alternatives| ==> alternatives[i] == alternatives[1..][i - 1];
      Contains(Lower(text), Lower(alternatives[0])) || rest
  }

  /** Adding alternatives can only turn a failed match into a passing one. */
  lemma AnyCaseInsensitiveMonotone(text: string, fewer: seq<string>, more: seq<string>)
    requires forall a :: a in fewer ==> a in more
    ensures AnyCaseInsensitive(text, fewer) ==> AnyCaseInsensitive(text, more)
  {
    if AnyCaseInsensitive(text, fewer) {
      var i :| 0 <= i < |fewer| && Contains(Lower(text), Lower(fewer[i]));
      assert fewer[i] in more;
      var j :| 0 <= j < |more| && more[j] == fewer[i];
    }
  }

  /** The character of a decimal digit. */
  function DigitChar(d: nat): (c: char)
    requires d < 10
    ensures '0' <= c <= '9' && c as int - '0' as int == d
  {
    (d + '0' as int) as char
  }

  /** The decimal rendering of a non-negative integer, as `${n}` writes it: no sign, no leading zero. */
  function NatToString(n: nat): (s: string)
    ensures |s| > 0
    ensures forall i :: 0 <= i < |s| ==> '0' <= s[i] <= '9'
    ensures |s| > 1 ==> s[0] != '0'
    decreases n
  {
    if n < 10 then [DigitChar(n)] else NatToString(n / 10) + [DigitChar(n % 10)]
  }

  /** Different numbers have different renderings. */
  lemma {:induction false} NatToStringInjective(a: nat, b: nat)
    requires NatToString(a) == NatToString(b)
    ensures a == b
    decreases a
  {
    var s := NatToString(a);
    if a < 10 && b < 10 {
      assert s[0] == DigitChar(a) && s[0] == DigitChar(b);
    } else if a >= 10 && b >= 10 {
      var k := |s| - 1;
      assert s[k] == DigitChar(a % 10) && s[k] == DigitChar(b % 10);
      assert s[..k] == NatToString(a / 10) && s[..k] == NatToString(b / 10);
      NatToStringInjective(a / 10, b / 10);
    }
  }
}
