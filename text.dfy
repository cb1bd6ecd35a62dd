/** Character-level helpers shared by the string operations of the site:
    ECMAScript white space, the first index of a character, and counting
    occurrences of a character. */
module Text {

  /** ECMAScript's WhiteSpace and LineTerminator code points: the class
      `\s` of regular expressions, and what `parseInt` skips at the start. */
  predicate IsSpace(c: char) {
    var n := c as int;
    n == 0x09 || n == 0x0A || n == 0x0B || n == 0x0C || n == 0x0D || n == 0x20 ||
    n == 0xA0 || n == 0x1680 || (0x2000 <= n <= 0x200A) || n == 0x2028 || n == 0x2029 ||
    n == 0x202F || n == 0x205F || n == 0x3000 || n == 0xFEFF
  }

  /** The first index of `c` in `s` (`indexOf` when it is not -1). */
  function IndexOf(s: string, c: char): (i: nat)
    requires c in s
    ensures i < |s| && s[i] == c && c !in s[..i]
  {
    if s[0] == c then 0
    else
      assert c in s[1..] by { var k :| 0 <= k < |s| && s[k] == c; assert s[1..][k - 1] == c; }
      var j := IndexOf(s[1..], c);
      assert s[..j + 1] == [s[0]] + s[1..][..j];
      1 + j
  }

  /** A character at `i` with none before it is the first one. */
  lemma IndexOfUnique(s: string, c: char, i: nat)
    requires i < |s| && s[i] == c && c !in s[..i]
    ensures IndexOf(s, c) == i
  {
    var f := IndexOf(s, c);
    forall j | 0 <= j < i ensures s[j] != c { assert s[j] == s[..i][j] && s[..i][j] in s[..i]; }
    forall j | 0 <= j < f ensures s[j] != c { assert s[j] == s[..f][j] && s[..f][j] in s[..f]; }
  }

  /** Number of occurrences of `c` in `s`. */
  function Count(s: string, c: char): (n: nat)
    ensures n <= |s|
    ensures n == 0 <==> c !in s
  {
    if s == [] then 0 else (if s[0] == c then 1 else 0) + Count(s[1..], c)
  }

  lemma {:induction false} CountAppend(a: string, b: string, c: char)
    ensures Count(a + b, c) == Count(a, c) + Count(b, c)
  {
    if a == [] {
      assert a + b == b;
    } else {
      assert (a + b)[1..] == a[1..] + b;
      CountAppend(a[1..], b, c);
    }
  }

  /** A character that occurs once, between two runs without it. */
  lemma CountSingle(a: string, c: char, b: string)
    requires c !in a && c !in b
    ensures Count(a + [c] + b, c) == 1
  {
    CountAppend(a + [c], b, c);
    CountAppend(a, [c], c);
  }

  /** Removing one occurrence lowers the count by one. */
  lemma CountRemove(s: string, i: nat, c: char)
    requires i < |s| && s[i] == c
    ensures Count(s[..i] + s[i + 1..], c) == Count(s, c) - 1
  {
    assert s == s[..i] + [c] + s[i + 1..];
    CountAppend(s[..i] + [c], s[i + 1..], c);
    CountAppend(s[..i], [c], c);
    CountAppend(s[..i], s[i + 1..], c);
  }
}
