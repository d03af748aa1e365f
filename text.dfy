/**
 * The pieces of Python string behaviour the crawler relies on: `str` of an
 * integer, `str.zfill`, `str.strip`, `str.split` on one separator character
 * and `str.replace("'", "")`.
 */
module Text {

  // ---------------------------------------------------------------------
  // Decimal digits: Python's str(int) and its inverse
  // ---------------------------------------------------------------------

  predicate IsDigit(c: char) {
    '0' <= c <= '9'
  }

  predicate IsDigits(s: string) {
    forall i :: 0 <= i < |s| ==> IsDigit(s[i])
  }

  function DigitChar(d: nat): (c: char)
    requires d < 10
    ensures IsDigit(c)
  {
    ['0', '1', '2', '3', '4', '5', '6', '7', '8', '9'][d]
  }

  function DigitValue(c: char): (d: nat)
    requires IsDigit(c)
    ensures d < 10
  {
    (c as int - '0' as int) as nat
  }

  /** The number a string of decimal digits denotes (leading zeros allowed). */
  function Value(s: string): nat
    requires IsDigits(s)
  {
    if s == [] then 0 else Value(s[..|s| - 1]) * 10 + DigitValue(s[|s| - 1])
  }

  /** Python's str(n) for a non-negative n: shortest decimal form. */
  function NatStr(n: nat): (r: string)
    ensures IsDigits(r) && |r| >= 1
    ensures |r| > 1 ==> r[0] != '0'
    decreases n
  {
    if n < 10 then [DigitChar(n)] else NatStr(n / 10) + [DigitChar(n % 10)]
  }

  /** Python's str(i) for any integer. */
  function Str(i: int): string
  {
    if i < 0 then "-" + NatStr(-i) else NatStr(i)
  }

  lemma {:induction false} ValueAppend(s: string, c: char)
    requires IsDigits(s) && IsDigit(c)
    ensures IsDigits(s + [c]) && Value(s + [c]) == Value(s) * 10 + DigitValue(c)
  {
    assert (s + [c])[..|s|] == s;
  }

  /** Reading back what str wrote gives the number again. */
  lemma {:induction false} NatStrValue(n: nat)
    ensures Value(NatStr(n)) == n
    decreases n
  {
    if n < 10 {
      assert NatStr(n)[..0] == [];
    } else {
      NatStrValue(n / 10);
      ValueAppend(NatStr(n / 10), DigitChar(n % 10));
    }
  }

  /** One digit below ten, two below a hundred, at least three from a hundred on. */
  lemma {:induction false} NatStrLength(n: nat)
    ensures n < 10 ==> |NatStr(n)| == 1
    ensures 10 <= n < 100 ==> |NatStr(n)| == 2
    ensures 100 <= n < 1000 ==> |NatStr(n)| == 3
    ensures 100 <= n ==> |NatStr(n)| >= 3
    decreases n
  {
    if n >= 10 {
      NatStrLength(n / 10);
    }
  }

  /** Leading zeros do not change the value. */
  lemma {:induction false} ValueLeadingZeros(k: nat, s: string)
    requires IsDigits(s)
    ensures IsDigits(Zeros(k) + s) && Value(Zeros(k) + s) == Value(s)
    decreases |s|
  {
    if s == [] {
      assert Zeros(k) + s == Zeros(k);
      ZerosValue(k);
    } else {
      var init, last := s[..|s| - 1], s[|s| - 1];
      assert s == init + [last];
      assert Zeros(k) + s == (Zeros(k) + init) + [last];
      ValueLeadingZeros(k, init);
      ValueAppend(Zeros(k) + init, last);
      ValueAppend(init, last);
    }
  }

  lemma {:induction false} ZerosValue(k: nat)
    ensures IsDigits(Zeros(k)) && Value(Zeros(k)) == 0
    decreases k
  {
    if k > 0 {
      assert Zeros(k)[..k - 1] == Zeros(k - 1);
      ZerosValue(k - 1);
    }
  }

  // ---------------------------------------------------------------------
  // str.zfill
  // ---------------------------------------------------------------------

  function Zeros(k: nat): (r: string)
    ensures |r| == k && forall i :: 0 <= i < k ==> r[i] == '0'
  {
    seq(k, _ => '0')
  }

  /**
   * Python's s.zfill(width): left-pad with '0' up to width, keeping a
   * leading sign in front of the padding.
   */
  function ZFill(s: string, width: nat): (r: string)
    ensures |r| == if |s| >= width then |s| else width
    ensures |s| >= width ==> r == s
    ensures |s| < width && (|s| == 0 || (s[0] != '+' && s[0] != '-')) ==> r == Zeros(width - |s|) + s
    ensures |s| < width && |s| > 0 && (s[0] == '+' || s[0] == '-') ==>
              r == [s[0]] + Zeros(width - |s|) + s[1..]
  {
    if |s| >= width then s
    else if |s| > 0 && (s[0] == '+' || s[0] == '-') then [s[0]] + Zeros(width - |s|) + s[1..]
    else Zeros(width - |s|) + s
  }

  /** Zero-padding a natural number's digits keeps its value and reaches the width. */
  lemma ZFillNatStr(n: nat, width: nat)
    ensures IsDigits(ZFill(NatStr(n), width))
    ensures Value(ZFill(NatStr(n), width)) == n
    ensures |ZFill(NatStr(n), width)| == if |NatStr(n)| >= width then |NatStr(n)| else width
  {
    var s := NatStr(n);
    NatStrValue(n);
    if |s| < width {
      assert IsDigit(s[0]);
      assert ZFill(s, width) == Zeros(width - |s|) + s;
      ValueLeadingZeros(width - |s|, s);
    }
  }

  // ---------------------------------------------------------------------
  // str.strip
  // ---------------------------------------------------------------------

  /** The ASCII characters Python's str.isspace accepts. */
  predicate IsSpace(c: char) {
    c == ' ' || c == '\t' || c == '\n' || c == '\r' || c == '\U{B}' || c == '\U{C}'
    || ('\U{1C}' <= c <= '\U{1F}')
  }

  function TrimStart(s: string): (r: string)
    ensures |r| <= |s| && r == s[|s| - |r|..]
    ensures r == [] || !IsSpace(r[0])
  {
    if s != [] && IsSpace(s[0]) then TrimStart(s[1..]) else s
  }

  function TrimEnd(s: string): (r: string)
    ensures |r| <= |s| && r == s[..|r|]
    ensures r == [] || !IsSpace(r[|r| - 1])
  {
    if s != [] && IsSpace(s[|s| - 1]) then TrimEnd(s[..|s| - 1]) else s
  }

  /** Python's s.strip() with no argument. */
  function Strip(s: string): (r: string)
    ensures r == [] || (!IsSpace(r[0]) && !IsSpace(r[|r| - 1]))
  {
    TrimEnd(TrimStart(s))
  }

  /** TrimStart drops only whitespace. */
  lemma {:induction false} TrimStartDropsSpace(s: string)
    ensures forall k :: 0 <= k < |s| - |TrimStart(s)| ==> IsSpace(s[k])
  {
    if s != [] && IsSpace(s[0]) {
      TrimStartDropsSpace(s[1..]);
      assert forall k :: 1 <= k < |s| ==> s[k] == s[1..][k - 1];
    }
  }

  /** TrimEnd drops only whitespace. */
  lemma {:induction false} TrimEndDropsSpace(s: string)
    ensures forall k :: |TrimEnd(s)| <= k < |s| ==> IsSpace(s[k])
  {
    if s != [] && IsSpace(s[|s| - 1]) {
      TrimEndDropsSpace(s[..|s| - 1]);
      assert forall k :: 0 <= k < |s| - 1 ==> s[k] == s[..|s| - 1][k];
    }
  }

  /**
   * strip() cuts the text at i and j, where everything before i and from j
   * on is whitespace and the middle is kept as it is; together with Strip's
   * own contract (the middle neither starts nor ends with whitespace) this
   * pins the result down.
   */
  lemma {:induction false} StripRemovesSurroundingSpace(s: string)
    ensures var i := |s| - |TrimStart(s)|;
            var j := i + |Strip(s)|;
            && 0 <= i <= j <= |s|
            && Strip(s) == s[i..j]
            && (forall k :: 0 <= k < i ==> IsSpace(s[k]))
            && (forall k :: j <= k < |s| ==> IsSpace(s[k]))
  {
    StripSlice(s);
    TrimStartDropsSpace(s);
    StripEndSpace(s);
  }

  lemma {:induction false} StripSlice(s: string)
    ensures var i := |s| - |TrimStart(s)|;
            var j := i + |Strip(s)|;
            && 0 <= i <= j <= |s|
            && Strip(s) == s[i..j]
  {
    var t := TrimStart(s);
    var u := TrimEnd(t);
    SuffixPrefix(s, t, u);
    assert Strip(s) == u;
  }

  lemma {:induction false} StripEndSpace(s: string)
    ensures forall k :: |s| - |TrimStart(s)| + |Strip(s)| <= k < |s| ==> IsSpace(s[k])
  {
    var t := TrimStart(s);
    TrimEndDropsSpace(t);
    SuffixSpace(s, t, |TrimEnd(t)|);
  }

  /** A prefix u of a suffix t of s is the slice of s between them. */
  lemma {:induction false} SuffixPrefix(s: string, t: string, u: string)
    requires |t| <= |s| && t == s[|s| - |t|..]
    requires |u| <= |t| && u == t[..|u|]
    ensures u == s[|s| - |t|..|s| - |t| + |u|]
  {
    var i := |s| - |t|;
    assert forall k :: 0 <= k < |u| ==> u[k] == t[k] == s[i + k];
  }

  /** Whitespace at the end of a suffix t of s is whitespace at the end of s. */
  lemma {:induction false} SuffixSpace(s: string, t: string, n: nat)
    requires |t| <= |s| && t == s[|s| - |t|..]
    requires forall k :: n <= k < |t| ==> IsSpace(t[k])
    ensures forall k :: |s| - |t| + n <= k < |s| ==> IsSpace(s[k])
  {
    var i := |s| - |t|;
    forall k | i + n <= k < |s| ensures IsSpace(s[k]) {
      assert s[k] == t[k - i];
    }
  }

  /** Text with no surrounding whitespace is left alone. */
  lemma StripTrimmed(s: string)
    requires s == [] || (!IsSpace(s[0]) && !IsSpace(s[|s| - 1]))
    ensures Strip(s) == s
  {
  }

  // ---------------------------------------------------------------------
  // str.split(sep) for a one-character separator
  // ---------------------------------------------------------------------

  /** Index of the first sep in s, or |s| when there is none. */
  function FirstIndexOf(s: string, sep: char): (k: nat)
    ensures k <= |s|
    ensures sep !in s[..k]
    ensures k < |s| ==> s[k] == sep
    ensures k == |s| <==> sep !in s
  {
    if s == [] then 0
    else if s[0] == sep then 0
    else
      assert s[1..][..FirstIndexOf(s[1..], sep)] == s[1..FirstIndexOf(s[1..], sep) + 1];
      1 + FirstIndexOf(s[1..], sep)
  }

  /** The text before the first sep (all of s when there is none). */
  function UpTo(s: string, sep: char): string
  {
    s[..FirstIndexOf(s, sep)]
  }

  /** Python's s.split(sep): the pieces between the separators, in order. */
  function Split(s: string, sep: char): (parts: seq<string>)
    ensures |parts| >= 1
  {
    if s == [] then [[]]
    else
      var rest := Split(s[1..], sep);
      if s[0] == sep then [[]] + rest
      else [[s[0]] + rest[0]] + rest[1..]
  }

  /** The inverse of Split: the pieces glued back with sep between them. */
  function Join(parts: seq<string>, sep: char): string
  {
    if parts == [] then []
    else if |parts| == 1 then parts[0]
    else parts[0] + [sep] + Join(parts[1..], sep)
  }

  /** Splitting loses nothing: joining the pieces gives the text back. */
  lemma {:induction false} SplitJoin(s: string, sep: char)
    ensures Join(Split(s, sep), sep) == s
  {
    if s != [] {
      var rest := Split(s[1..], sep);
      SplitJoin(s[1..], sep);
      assert rest == [rest[0]] + rest[1..];
      if s[0] == sep {
        assert Split(s, sep) == [[]] + rest;
        JoinCons([], rest, sep);
      } else {
        assert Split(s, sep) == [[s[0]] + rest[0]] + rest[1..];
        JoinCons([s[0]] + rest[0], rest[1..], sep);
        JoinCons(rest[0], rest[1..], sep);
      }
      assert s == [s[0]] + s[1..];
    }
  }

  /** Join of a piece in front of the others. */
  lemma {:induction false} JoinCons(p: string, ps: seq<string>, sep: char)
    ensures Join([p] + ps, sep) == if ps == [] then p else p + [sep] + Join(ps, sep)
  {
    assert ([p] + ps)[1..] == ps;
  }

  /** The first piece is the text before the first separator, and the rest is the split of what follows it. */
  lemma {:induction false} SplitFirst(s: string, sep: char)
    ensures Split(s, sep)[0] == UpTo(s, sep)
    ensures sep in s ==> Split(s, sep)[1..] == Split(s[FirstIndexOf(s, sep) + 1..], sep)
    ensures sep !in s ==> |Split(s, sep)| == 1
  {
    if s != [] {
      var rest := Split(s[1..], sep);
      var k := FirstIndexOf(s[1..], sep);
      SplitFirst(s[1..], sep);
      if s[0] == sep {
        assert ([[]] + rest)[1..] == rest;
      } else {
        assert Split(s, sep) == [[s[0]] + rest[0]] + rest[1..];
        assert FirstIndexOf(s, sep) == k + 1;
        assert s[..k + 1] == [s[0]] + s[1..][..k];
        if sep in s {
          assert sep in s[1..] by {
            var j :| 0 <= j < |s| && s[j] == sep;
            assert s[1..][j - 1] == sep;
          }
          assert s[1..][k + 1..] == s[k + 2..];
        }
      }
    }
  }

  /** No piece contains the separator. */
  lemma {:induction false} SplitPiecesFree(s: string, sep: char)
    ensures forall i :: 0 <= i < |Split(s, sep)| ==> sep !in Split(s, sep)[i]
  {
    if s != [] {
      SplitPiecesFree(s[1..], sep);
    }
  }

  /** Dropping the first character the way Python's slice s[1:] does: never an error. */
  function DropFirst(s: string): (r: string)
    ensures |r| == if s == [] then 0 else |s| - 1
    ensures s != [] ==> s == [s[0]] + r
  {
    if s == [] then [] else s[1..]
  }

  // ---------------------------------------------------------------------
  // str.replace("'", "")
  // ---------------------------------------------------------------------

  predicate QuoteFree(s: string) {
    '\'' !in s
  }

  /** The number of single quotes in s. */
  function QuoteCount(s: string): nat
  {
    if s == [] then 0 else (if s[0] == '\'' then 1 else 0) + QuoteCount(s[1..])
  }

  /** Python's s.replace("'", ""): every single quote removed. */
  function StripQuotes(s: string): (r: string)
    ensures QuoteFree(r)
  {
    if s == [] then []
    else if s[0] == '\'' then StripQuotes(s[1..])
    else [s[0]] + StripQuotes(s[1..])
  }

  /** Only the quotes go: every other character stays, as often as it occurred. */
  lemma {:induction false} StripQuotesKeepsOthers(s: string)
    ensures |StripQuotes(s)| == |s| - QuoteCount(s)
    ensures forall c :: c != '\'' ==> multiset(StripQuotes(s))[c] == multiset(s)[c]
  {
    if s != [] {
      StripQuotesKeepsOthers(s[1..]);
      assert s == [s[0]] + s[1..];
    }
  }

  /** Text without quotes passes through unchanged, so removing quotes twice is removing them once. */
  lemma {:induction false} StripQuotesQuoteFree(s: string)
    requires QuoteFree(s)
    ensures StripQuotes(s) == s
  {
    if s != [] {
      assert QuoteFree(s[1..]) by {
        assert forall i :: 0 <= i < |s[1..]| ==> s[1..][i] == s[i + 1];
      }
      StripQuotesQuoteFree(s[1..]);
    }
  }

  /**
   * Quote removal works character by character: a single quote vanishes,
   * any other character stays, and the pieces of a text keep their order.
   */
  lemma {:induction false} StripQuotesAppend(a: string, b: string)
    ensures StripQuotes(a + b) == StripQuotes(a) + StripQuotes(b)
    ensures |a| == 1 ==> StripQuotes(a) == if a[0] == '\'' then [] else a
  {
    if a == [] {
      assert a + b == b;
    } else {
      assert (a + b)[0] == a[0];
      assert (a + b)[1..] == a[1..] + b;
      StripQuotesAppend(a[1..], b);
      if a[0] != '\'' {
        assert StripQuotes(a + b) == [a[0]] + (StripQuotes(a[1..]) + StripQuotes(b));
      }
    }
  }

  lemma StripQuotesIdempotent(s: string)
    ensures StripQuotes(StripQuotes(s)) == StripQuotes(s)
  {
    StripQuotesQuoteFree(StripQuotes(s));
  }
}
