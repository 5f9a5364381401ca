/**
 * Value types and sequence / string helpers shared by every part of the model:
 * the optional value, the success/failure envelope of the store, order-preserving
 * filters, left-fold sums, and the handful of JavaScript string operations the
 * application relies on (`trim`, `toLowerCase`, `includes`, `startsWith`).
 */
module Common {

  datatype Option<T> = None | Some(value: T)

  /** The `{ success: true, data }` / `{ success: false, error }` envelope of every store call. */
  datatype Reply<T> = Success(data: T) | Failure(error: string)

  // ---------------------------------------------------------------------------
  // Sequences
  // ---------------------------------------------------------------------------

  /** `r` is obtained from `s` by deleting elements, keeping the order of the rest. */
  predicate IsSubsequence<T(==)>(r: seq<T>, s: seq<T>)
  {
    r == [] || (s != [] && ((r[0] == s[0] && IsSubsequence(r[1..], s[1..])) || IsSubsequence(r, s[1..])))
  }

  lemma {:induction false} SubsequenceRefl<T>(s: seq<T>)
    ensures IsSubsequence(s, s)
  {
    if s != [] {
      SubsequenceRefl(s[1..]);
    }
  }

  lemma {:induction false} SubsequenceTrans<T>(a: seq<T>, b: seq<T>, c: seq<T>)
    requires IsSubsequence(a, b) && IsSubsequence(b, c)
    ensures IsSubsequence(a, c)
    decreases |c|
  {
    if a != [] {
      if b[0] == c[0] && IsSubsequence(b[1..], c[1..]) {
        if a[0] == b[0] && IsSubsequence(a[1..], b[1..]) {
          SubsequenceTrans(a[1..], b[1..], c[1..]);
        } else {
          SubsequenceTrans(a, b[1..], c[1..]);
        }
      } else {
        SubsequenceTrans(a, b, c[1..]);
      }
    }
  }

  /** A subsequence is never longer than the sequence it is taken from. */
  lemma {:induction false} SubsequenceLength<T>(r: seq<T>, s: seq<T>)
    requires IsSubsequence(r, s)
    ensures |r| <= |s|
    decreases |s|
  {
    if r != [] {
      if r[0] == s[0] && IsSubsequence(r[1..], s[1..]) {
        SubsequenceLength(r[1..], s[1..]);
      } else {
        SubsequenceLength(r, s[1..]);
      }
    }
  }

  /** JavaScript's `Array.prototype.filter`: the elements satisfying `p`, in their original order. */
  function Filter<T>(s: seq<T>, p: T -> bool): (r: seq<T>)
    ensures |r| <= |s|
    ensures forall x :: x in r ==> x in s && p(x)
    ensures forall x :: x in s && p(x) ==> x in r
    ensures IsSubsequence(r, s)
  {
    if s == [] then []
    else if p(s[0]) then [s[0]] + Filter(s[1..], p)
    else Filter(s[1..], p)
  }

  /** A filter whose predicate holds everywhere returns its input unchanged. */
  lemma {:induction false} FilterKeepsAll<T>(s: seq<T>, p: T -> bool)
    requires forall i :: 0 <= i < |s| ==> p(s[i])
    ensures Filter(s, p) == s
  {
    if s != [] {
      FilterKeepsAll(s[1..], p);
    }
  }

  /** A filter whose predicate holds nowhere returns the empty sequence. */
  lemma {:induction false} FilterKeepsNone<T>(s: seq<T>, p: T -> bool)
    requires forall x :: x in s ==> !p(x)
    ensures Filter(s, p) == []
  {
    if s != [] {
      FilterKeepsNone(s[1..], p);
    }
  }

  /** Filtering a concatenation filters each part. */
  lemma {:induction false} FilterAppend<T>(a: seq<T>, b: seq<T>, p: T -> bool)
    ensures Filter(a + b, p) == Filter(a, p) + Filter(b, p)
  {
    if a == [] {
      assert a + b == b;
    } else {
      assert (a + b)[1..] == a[1..] + b;
      FilterAppend(a[1..], b, p);
    }
  }

  /** A filter that refuses exactly the element at `k` returns the others, in order. */
  lemma FilterDropsOne<T>(before: seq<T>, x: T, after: seq<T>, p: T -> bool)
    requires forall i :: 0 <= i < |before| ==> p(before[i])
    requires !p(x)
    requires forall i :: 0 <= i < |after| ==> p(after[i])
    ensures Filter(before + [x] + after, p) == before + after
  {
    FilterKeepsAll(before, p);
    FilterKeepsAll(after, p);
    assert Filter([x] + after, p) == after by {
      assert ([x] + after)[1..] == after;
    }
    assert before + [x] + after == before + ([x] + after);
    FilterAppend(before, [x] + after, p);
  }

  /** Two predicates that agree on every element of `s` filter it alike. */
  lemma {:induction false} FilterCongruent<T>(s: seq<T>, p: T -> bool, q: T -> bool)
    requires forall x :: x in s ==> p(x) == q(x)
    ensures Filter(s, p) == Filter(s, q)
  {
    if s != [] {
      FilterCongruent(s[1..], p, q);
    }
  }

  /** Filtering twice is filtering once by the conjunction. */
  lemma {:induction false} FilterFilter<T>(s: seq<T>, p: T -> bool, q: T -> bool, pq: T -> bool)
    requires forall x :: x in s ==> pq(x) == (p(x) && q(x))
    ensures Filter(Filter(s, p), q) == Filter(s, pq)
  {
    if s != [] {
      FilterFilter(s[1..], p, q, pq);
    }
  }

  /** `reduce((acc, x) => acc + v(x), 0)`: a left fold, so the last element is added last. */
  function SumOf<T>(s: seq<T>, v: T -> int): int
  {
    if s == [] then 0 else SumOf(s[..|s| - 1], v) + v(s[|s| - 1])
  }

  /** The fold is additive over concatenation. */
  lemma {:induction false} SumOfAppend<T>(a: seq<T>, b: seq<T>, v: T -> int)
    ensures SumOf(a + b, v) == SumOf(a, v) + SumOf(b, v)
    decreases |b|
  {
    if b == [] {
      assert a + b == a;
    } else {
      var n := |b| - 1;
      assert (a + b)[..|a + b| - 1] == a + b[..n];
      assert (a + b)[|a + b| - 1] == b[n];
      SumOfAppend(a, b[..n], v);
    }
  }

  /** The sum of a sequence of non-negative values is non-negative. */
  lemma {:induction false} SumOfNonNegative<T>(s: seq<T>, v: T -> int)
    requires forall x :: x in s ==> v(x) >= 0
    ensures SumOf(s, v) >= 0
  {
    if s != [] {
      assert forall x :: x in s[..|s| - 1] ==> x in s;
      SumOfNonNegative(s[..|s| - 1], v);
    }
  }

  /** Over non-negative values, the sum is at least the value of any one element. */
  lemma SumOfAtLeastMember<T>(s: seq<T>, x: T, v: T -> int)
    requires x in s
    requires forall y :: y in s ==> v(y) >= 0
    ensures SumOf(s, v) >= v(x)
  {
    var k :| 0 <= k < |s| && s[k] == x;
    var before, after := s[..k], s[k + 1..];
    assert SumOf(before, v) >= 0 by {
      assert forall y :: y in before ==> y in s;
      SumOfNonNegative(before, v);
    }
    assert SumOf(after, v) >= 0 by {
      assert forall y :: y in after ==> y in s;
      SumOfNonNegative(after, v);
    }
    assert SumOf([x], v) == v(x) by {
      assert [x][..0] == [];
    }
    assert s == before + [x] + after;
    SumOfAppend(before + [x], after, v);
    SumOfAppend(before, [x], v);
  }

  /** Over non-negative values, the sum of a subsequence is at most the sum of the whole. */
  lemma {:induction false} SumOfSubsequence<T>(r: seq<T>, s: seq<T>, v: T -> int)
    requires IsSubsequence(r, s)
    requires forall x :: x in s ==> v(x) >= 0
    ensures SumOf(r, v) <= SumOf(s, v)
    decreases |s|
  {
    if r == [] {
      SumOfNonNegative(s, v);
    } else {
      assert s == [s[0]] + s[1..];
      SumOfAppend([s[0]], s[1..], v);
      assert SumOf([s[0]], v) == v(s[0]) by {
        assert [s[0]][..0] == [];
      }
      if r[0] == s[0] && IsSubsequence(r[1..], s[1..]) {
        SumOfSubsequence(r[1..], s[1..], v);
        assert r == [r[0]] + r[1..];
        SumOfAppend([r[0]], r[1..], v);
        assert SumOf([r[0]], v) == v(r[0]) by {
          assert [r[0]][..0] == [];
        }
      } else {
        SumOfSubsequence(r, s[1..], v);
      }
    }
  }

  // ---------------------------------------------------------------------------
  // Strings
  // ---------------------------------------------------------------------------

  /** The characters `String.prototype.trim` removes: white space and line terminators. */
  predicate IsJsWhitespace(c: char)
  {
    c == ' ' || c == '\t' || c == '\n' || c == '\r' || c == '\U{000B}' || c == '\U{000C}'
    || c == '\U{00A0}' || c == '\U{1680}' || ('\U{2000}' <= c <= '\U{200A}')
    || c == '\U{2028}' || c == '\U{2029}' || c == '\U{202F}' || c == '\U{205F}'
    || c == '\U{3000}' || c == '\U{FEFF}'
  }

  /** Every character of `s` is white space (the empty string included). */
  predicate IsBlank(s: string)
  {
    forall i :: 0 <= i < |s| ==> IsJsWhitespace(s[i])
  }

  /** The index of the first character at or after `i` that is not white space (`|s|` if none). */
  function SkipBlanks(s: string, i: nat): (k: nat)
    requires i <= |s|
    ensures i <= k <= |s|
    ensures forall j :: i <= j < k ==> IsJsWhitespace(s[j])
    ensures k == |s| || !IsJsWhitespace(s[k])
    decreases |s| - i
  {
    if i < |s| && IsJsWhitespace(s[i]) then SkipBlanks(s, i + 1) else i
  }

  /** The end of `s[lo..j]` once its trailing white space is dropped. */
  function DropBlanks(s: string, lo: nat, j: nat): (k: nat)
    requires lo <= j <= |s|
    ensures lo <= k <= j
    ensures forall m :: k <= m < j ==> IsJsWhitespace(s[m])
    ensures k == lo || !IsJsWhitespace(s[k - 1])
    ensures lo < j && !IsJsWhitespace(s[lo]) ==> lo < k
    decreases j
  {
    if j > lo && IsJsWhitespace(s[j - 1]) then DropBlanks(s, lo, j - 1) else j
  }

  /** `String.prototype.trim`: leading and trailing white space removed. */
  function Trim(s: string): (r: string)
    ensures r == [] || (!IsJsWhitespace(r[0]) && !IsJsWhitespace(r[|r| - 1]))
  {
    var a := SkipBlanks(s, 0);
    s[a..DropBlanks(s, a, |s|)]
  }

  /** `s.trim()` is falsy exactly when `s` holds nothing but white space. */
  lemma TrimEmptyIffBlank(s: string)
    ensures Trim(s) == [] <==> IsBlank(s)
  {
    var a := SkipBlanks(s, 0);
    var b := DropBlanks(s, a, |s|);
    assert Trim(s) == s[a..b];
  }

  /** Trimming a string with no surrounding white space leaves it unchanged. */
  lemma TrimUntouched(s: string)
    requires s == [] || (!IsJsWhitespace(s[0]) && !IsJsWhitespace(s[|s| - 1]))
    ensures Trim(s) == s
  {
  }

  /**
   * The lower-case mapping of `String.prototype.toLowerCase`, one character to
   * one, over part of Unicode: the ASCII capitals, the Latin-1 capitals
   * U+00C0..U+00DE (not the multiplication sign U+00D7), the capitals of Latin
   * Extended-A, which come in pairs with their small letters (not the dotted
   * U+0130, whose small form is two characters), and the capitals of the Ewe and
   * Kabiye alphabets found in Latin Extended-B. Every other character is kept.
   */
  function LowerChar(c: char): (r: char)
  {
    var n := c as int;
    if 'A' <= c <= 'Z' || (0xC0 <= n <= 0xDE && n != 0xD7) then (n + 32) as char
    else if (0x100 <= n <= 0x12F || 0x132 <= n <= 0x137 || 0x14A <= n <= 0x177) && n % 2 == 0 then (n + 1) as char
    else if (0x139 <= n <= 0x148 || 0x179 <= n <= 0x17E) && n % 2 == 1 then (n + 1) as char
    else if n == 0x178 then '\U{00FF}'
    else if n == 0x181 then '\U{0253}'
    else if n == 0x186 then '\U{0254}'
    else if n == 0x189 then '\U{0256}'
    else if n == 0x18A then '\U{0257}'
    else if n == 0x18E then '\U{01DD}'
    else if n == 0x190 then '\U{025B}'
    else if n == 0x191 then '\U{0192}'
    else if n == 0x194 then '\U{0263}'
    else if n == 0x1B2 then '\U{028B}'
    else c
  }

  function ToLower(s: string): (r: string)
    ensures |r| == |s|
    ensures forall i :: 0 <= i < |s| ==> r[i] == LowerChar(s[i])
  {
    if s == [] then [] else [LowerChar(s[0])] + ToLower(s[1..])
  }

  /** Lower-casing twice is lower-casing once. */
  lemma ToLowerIdempotent(s: string)
    ensures ToLower(ToLower(s)) == ToLower(s)
  {
  }

  predicate IsPrefix(p: string, s: string)
  {
    |p| <= |s| && s[..|p|] == p
  }

  /** `String.prototype.includes`: `sub` occurs in `s` at some position. */
  predicate Contains(s: string, sub: string)
    decreases |s|
  {
    IsPrefix(sub, s) || (s != [] && Contains(s[1..], sub))
  }

  /** `sub` occurs in `s` starting at index `i`. */
  predicate OccursAt(s: string, sub: string, i: int)
  {
    0 <= i <= |s| - |sub| && s[i..i + |sub|] == sub
  }

  /** `includes` holds exactly when some slice of `s` equals `sub`. */
  lemma {:induction false} ContainsAt(s: string, sub: string)
    ensures Contains(s, sub) <==> exists i :: OccursAt(s, sub, i)
    decreases |s|
  {
    if IsPrefix(sub, s) {
      assert OccursAt(s, sub, 0);
    }
    if s != [] {
      ContainsAt(s[1..], sub);
      if Contains(s[1..], sub) {
        var i :| OccursAt(s[1..], sub, i);
        assert s[i + 1..i + 1 + |sub|] == s[1..][i..i + |sub|];
        assert OccursAt(s, sub, i + 1);
      }
      if exists i :: OccursAt(s, sub, i) {
        var i :| OccursAt(s, sub, i);
        if i > 0 {
          assert s[1..][i - 1..i - 1 + |sub|] == s[i..i + |sub|];
          assert OccursAt(s[1..], sub, i - 1);
        } else {
          assert IsPrefix(sub, s);
        }
      }
    } else {
      if exists i :: OccursAt(s, sub, i) {
        var i :| OccursAt(s, sub, i);
        assert IsPrefix(sub, s);
      }
    }
  }

  /** A text never contains a longer one. */
  lemma {:induction false} ContainsNoLonger(s: string, sub: string)
    requires |sub| > |s|
    ensures !Contains(s, sub)
    decreases |s|
  {
    if s != [] {
      ContainsNoLonger(s[1..], sub);
    }
  }

  /** The empty string is included in every string. */
  lemma ContainsEmpty(s: string)
    ensures Contains(s, [])
  {
  }

  predicate IsDigit(c: char)
  {
    '0' <= c <= '9'
  }

  /** `s.replace(/\D/g, '')`: the decimal digits of `s`, in order. */
  function DigitsOf(s: string): (r: string)
    ensures |r| <= |s|
    ensures forall i :: 0 <= i < |r| ==> IsDigit(r[i])
  {
    if s == [] then []
    else if IsDigit(s[0]) then [s[0]] + DigitsOf(s[1..])
    else DigitsOf(s[1..])
  }

  lemma {:induction false} DigitsOfAppend(a: string, b: string)
    ensures DigitsOf(a + b) == DigitsOf(a) + DigitsOf(b)
  {
    if a == [] {
      assert a + b == b;
    } else {
      assert (a + b)[1..] == a[1..] + b;
      DigitsOfAppend(a[1..], b);
    }
  }

  /** Removing the non-digits of a string made only of digits changes nothing. */
  lemma {:induction false} DigitsOfDigits(s: string)
    requires forall i :: 0 <= i < |s| ==> IsDigit(s[i])
    ensures DigitsOf(s) == s
  {
    if s != [] {
      DigitsOfDigits(s[1..]);
    }
  }

  /** The decimal spelling of a natural number (`String(n)`, no leading zeros). */
  function NatToString(n: nat): (r: string)
    ensures |r| >= 1
    ensures forall i :: 0 <= i < |r| ==> IsDigit(r[i])
  {
    if n < 10 then [('0' as int + n) as char]
    else NatToString(n / 10) + [('0' as int + n % 10) as char]
  }

  /** The value of a string of decimal digits, most significant first. */
  function DigitsValue(s: string): nat
  {
    if s == [] then 0
    else DigitsValue(s[..|s| - 1]) * 10 + (if IsDigit(s[|s| - 1]) then s[|s| - 1] as int - '0' as int else 0)
  }

  /** Reading back the decimal spelling of `n` gives `n`. */
  lemma {:induction false} NatToStringValue(n: nat)
    ensures DigitsValue(NatToString(n)) == n
  {
    if n >= 10 {
      var r := NatToString(n);
      assert r[..|r| - 1] == NatToString(n / 10);
      NatToStringValue(n / 10);
    }
  }

  /** `String.prototype.padStart(width, c)`: `c` repeated on the left up to `width`. */
  function PadStart(s: string, width: nat, c: char): (r: string)
    ensures |r| == if |s| < width then width else |s|
    ensures r[|r| - |s|..] == s
    ensures forall i :: 0 <= i < |r| - |s| ==> r[i] == c
  {
    if |s| < width then Repeat(c, width - |s|) + s else s
  }

  /** `n` copies of `c`. */
  function Repeat(c: char, n: nat): (r: string)
    ensures |r| == n && forall i :: 0 <= i < n ==> r[i] == c
  {
    seq(n, _ => c)
  }

  /** A leading zero does not change the value of a digit string. */
  lemma {:induction false} LeadingZeroValue(s: string)
    ensures DigitsValue(['0'] + s) == DigitsValue(s)
    decreases |s|
  {
    if s != [] {
      assert (['0'] + s)[..|['0'] + s| - 1] == ['0'] + s[..|s| - 1];
      LeadingZeroValue(s[..|s| - 1]);
    }
  }

  /** Leading zeros do not change the value. */
  lemma {:induction false} ZerosValue(n: nat, s: string)
    ensures DigitsValue(Repeat('0', n) + s) == DigitsValue(s)
  {
    if n > 0 {
      var rest := Repeat('0', n - 1) + s;
      assert Repeat('0', n) == ['0'] + Repeat('0', n - 1);
      assert Repeat('0', n) + s == ['0'] + rest;
      LeadingZeroValue(rest);
      ZerosValue(n - 1, s);
    } else {
      assert Repeat('0', n) + s == s;
    }
  }

  /** Padding with zeros does not change the value. */
  lemma ZeroPadValue(s: string, width: nat)
    ensures DigitsValue(PadStart(s, width, '0')) == DigitsValue(s)
  {
    if |s| < width {
      ZerosValue(width - |s|, s);
    }
  }
}
