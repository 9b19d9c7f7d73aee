/** String operations of the Go standard library that the wire formats and store keys rely on.
    A Go string is a byte string; here a `char` stands for one byte or rune. */
module Text {
  import opened Common

  // ---- searching and splitting ----

  /** Position of the first `c` in `s`, or |s| when there is none. */
  function IndexOf(s: string, c: char): (i: nat)
    ensures i <= |s| && c !in s[..i]
    ensures i < |s| ==> s[i] == c
  {
    if s == "" || s[0] == c then 0
    else
      var i := 1 + IndexOf(s[1..], c);
      assert s[..i] == [s[0]] + s[1..][..i - 1];
      i
  }

  /** strings.Split with a one-character separator. */
  function Split(s: string, c: char): seq<string>
    decreases |s|
  {
    var i := IndexOf(s, c);
    if i == |s| then [s] else [s[..i]] + Split(s[i + 1..], c)
  }

  lemma {:induction false} IndexOfAfter(x: string, y: string, c: char)
    requires c !in x
    ensures IndexOf(x + [c] + y, c) == |x|
  {
    var s := x + [c] + y;
    assert forall k | 0 <= k < |x| :: s[k] == x[k];
    assert forall i | |x| < i <= |s| :: s[..i][|x|] == c;
  }

  lemma {:induction false} SplitHead(x: string, y: string, c: char)
    requires c !in x
    ensures Split(x + [c] + y, c) == [x] + Split(y, c)
  {
    IndexOfAfter(x, y, c);
    var s := x + [c] + y;
    assert s[..|x|] == x && s[|x| + 1..] == y;
  }

  lemma SplitWhole(x: string, c: char)
    requires c !in x
    ensures Split(x, c) == [x]
  {
  }

  /** Splitting two texts joined by the separator splits each of them. */
  lemma {:induction false} SplitJoined(x: string, y: string, c: char)
    ensures Split(x + [c] + y, c) == Split(x, c) + Split(y, c)
    decreases |x|
  {
    var i := IndexOf(x, c);
    if i == |x| {
      SplitHead(x, y, c);
    } else {
      var head, tail := x[..i], x[i + 1..];
      var joined := tail + [c] + y;
      assert x == head + [c] + tail;
      assert x + [c] + y == head + [c] + joined;
      SplitHead(head, joined, c);
      SplitHead(head, tail, c);
      SplitJoined(tail, y, c);
      Regroup(head, Split(tail, c), Split(y, c));
    }
  }

  lemma Regroup(x: string, a: seq<string>, b: seq<string>)
    ensures [x] + (a + b) == ([x] + a) + b
  {
  }

  lemma {:induction false} SplitOne(x: string, c: char)
    ensures |Split(x, c)| >= 1
    ensures |Split(x, c)| == 1 <==> c !in x
    ensures |Split(x, c)| == 1 ==> Split(x, c) == [x]
  {
    var i := IndexOf(x, c);
    if i < |x| {
      SplitOne(x[i + 1..], c);
      assert x[i] in x;
    }
  }

  /** A separator that does not occur in the text before it determines both halves. */
  lemma {:induction false} CutUnique(x: string, y: string, x': string, y': string, c: char)
    requires c !in x && c !in x'
    requires x + [c] + y == x' + [c] + y'
    ensures x == x' && y == y'
  {
    var s := x + [c] + y;
    IndexOfAfter(x, y, c);
    IndexOfAfter(x', y', c);
    assert s[..|x|] == x && s[..|x|] == x';
    assert s[|x| + 1..] == y && s[|x| + 1..] == y';
  }

  /** Dually, a separator that does not occur in the text after it. */
  lemma {:induction false} CutLastUnique(x: string, y: string, x': string, y': string, c: char)
    requires c !in y && c !in y'
    requires x + [c] + y == x' + [c] + y'
    ensures x == x' && y == y'
  {
    var s, s' := x + [c] + y, x' + [c] + y';
    assert s[|x|] == c && s'[|x'|] == c;
    assert forall k | |x| < k < |s| :: s[k] == y[k - |x| - 1];
    assert forall k | |x'| < k < |s'| :: s'[k] == y'[k - |x'| - 1];
    assert s[..|x|] == x && s'[..|x|] == x';
    assert s[|x| + 1..] == y && s'[|x| + 1..] == y';
  }

  lemma Prepend(start: string, x: string, y: string)
    ensures start + x == start + y <==> x == y
  {
    assert (start + x)[|start|..] == x && (start + y)[|start|..] == y;
  }

  // ---- white space ----

  /** unicode.IsSpace */
  predicate IsSpace(c: char) {
    '\t' <= c <= '\r' || c == ' ' || c == '\U{85}' || c == '\U{A0}' || c == '\U{1680}' ||
    '\U{2000}' <= c <= '\U{200a}' || c == '\U{2028}' || c == '\U{2029}' || c == '\U{202f}' ||
    c == '\U{205f}' || c == '\U{3000}'
  }

  function TrimLeft(s: string): string {
    if s != "" && IsSpace(s[0]) then TrimLeft(s[1..]) else s
  }

  function TrimRight(s: string): string {
    if s != "" && IsSpace(s[|s| - 1]) then TrimRight(s[..|s| - 1]) else s
  }

  /** strings.TrimSpace */
  function TrimSpace(s: string): string {
    TrimRight(TrimLeft(s))
  }

  /** Nothing to trim: the text is empty or begins and ends with something visible. */
  predicate Trimmed(s: string) {
    s == "" || (!IsSpace(s[0]) && !IsSpace(s[|s| - 1]))
  }

  lemma TrimSpaceKeeps(s: string)
    requires Trimmed(s)
    ensures TrimSpace(s) == s
  {
  }

  lemma {:induction false} TrimRightMeaning(s: string)
    ensures TrimRight(s) <= s
    ensures TrimRight(s) == "" || !IsSpace(TrimRight(s)[|TrimRight(s)| - 1])
  {
    if s != "" && IsSpace(s[|s| - 1]) {
      TrimRightMeaning(s[..|s| - 1]);
    }
  }

  lemma {:induction false} TrimSpaceTrims(s: string)
    ensures Trimmed(TrimSpace(s))
    decreases |s|
  {
    if s != "" && IsSpace(s[0]) {
      TrimSpaceTrims(s[1..]);
    } else {
      TrimRightMeaning(s);
    }
  }

  predicate AllSpace(s: string) { forall i | 0 <= i < |s| :: IsSpace(s[i]) }

  lemma {:induction false} TrimLeftRemoves(s: string) returns (a: string)
    ensures s == a + TrimLeft(s) && AllSpace(a)
  {
    if s != "" && IsSpace(s[0]) {
      a := TrimLeftRemoves(s[1..]);
      a := [s[0]] + a;
    } else {
      a := "";
    }
  }

  lemma {:induction false} TrimRightRemoves(s: string) returns (b: string)
    ensures s == TrimRight(s) + b && AllSpace(b)
  {
    if s != "" && IsSpace(s[|s| - 1]) {
      b := TrimRightRemoves(s[..|s| - 1]);
      b := b + [s[|s| - 1]];
    } else {
      b := "";
    }
  }

  /** Trimming takes away white space at both ends, all of it, and nothing else. */
  lemma {:induction false} TrimSpaceMeaning(s: string)
    ensures Trimmed(TrimSpace(s))
    ensures exists a, b | AllSpace(a) && AllSpace(b) :: s == a + TrimSpace(s) + b
  {
    TrimSpaceTrims(s);
    var a := TrimLeftRemoves(s);
    var b := TrimRightRemoves(TrimLeft(s));
    assert s == a + TrimSpace(s) + b;
  }

  // ---- case ----

  /** strings.ToUpper on ASCII letters; other characters are left alone. */
  function Upper(s: string): (r: string)
    ensures |r| == |s| && forall i | 0 <= i < |s| :: r[i] == UpperChar(s[i])
  {
    if s == "" then "" else [UpperChar(s[0])] + Upper(s[1..])
  }

  function UpperChar(c: char): char { if 'a' <= c <= 'z' then c - 32 as char else c }

  function LowerChar(c: char): char { if 'A' <= c <= 'Z' then c + 32 as char else c }

  /** strings.ToLower, likewise. */
  function Lower(s: string): (r: string)
    ensures |r| == |s| && forall i | 0 <= i < |s| :: r[i] == LowerChar(s[i])
  {
    if s == "" then "" else [LowerChar(s[0])] + Lower(s[1..])
  }

  /** strings.TrimPrefix */
  function TrimPrefix(s: string, prefix: string): string {
    if prefix <= s then s[|prefix|..] else s
  }

  // ---- decimal integers ----

  const INT64_MIN: int := -0x8000_0000_0000_0000
  const INT64_MAX: int := 0x7fff_ffff_ffff_ffff

  predicate Int64(n: int) { INT64_MIN <= n <= INT64_MAX }

  predicate IsDigit(c: char) { '0' <= c <= '9' }

  predicate AllDigits(s: string) { forall i | 0 <= i < |s| :: IsDigit(s[i]) }

  function DigitsValue(s: string): nat
    requires AllDigits(s)
  {
    if s == "" then 0 else 10 * DigitsValue(s[..|s| - 1]) + (s[|s| - 1] - '0') as nat
  }

  /** strconv.ParseInt(s, 10, 64): an optional sign, at least one digit, within range. */
  function ParseInt(s: string): (n: Option<int>)
    ensures n.Some? ==> Int64(n.value)
  {
    var digits := if s != "" && (s[0] == '+' || s[0] == '-') then s[1..] else s;
    if digits == "" || !AllDigits(digits) then None
    else
      var magnitude: int := DigitsValue(digits);
      var n := if s[0] == '-' then -magnitude else magnitude;
      if Int64(n) then Some(n) else None
  }

  /** Exactly which texts are read as which number: an optional sign and at least one digit, within range. */
  lemma {:induction false} ParseIntIff(s: string, n: int)
    ensures ParseInt(s) == Some(n) <==> Int64(n) && exists digits | digits != "" && AllDigits(digits) :: Denotes(s, digits, n)
  {
    if ParseInt(s) == Some(n) {
      var digits := if s[0] == '+' || s[0] == '-' then s[1..] else s;
      assert s == [s[0]] + s[1..];
      assert Denotes(s, digits, n);
    }
    if digits :| Int64(n) && digits != "" && AllDigits(digits) && Denotes(s, digits, n) {
      assert IsDigit(digits[0]);
      assert ("+" + digits)[1..] == digits && ("-" + digits)[1..] == digits;
    }
  }

  predicate Denotes(s: string, digits: string, n: int)
    requires AllDigits(digits)
  {
    ((s == digits || s == "+" + digits) && n == DigitsValue(digits)) || (s == "-" + digits && n + DigitsValue(digits) == 0)
  }

  function FormatNat(n: nat): (s: string)
    ensures s != "" && AllDigits(s)
  {
    if n < 10 then ['0' + n as char] else FormatNat(n / 10) + ['0' + (n % 10) as char]
  }

  /** The %d verb. */
  function FormatInt(n: int): string {
    if n < 0 then "-" + FormatNat(-n) else FormatNat(n)
  }

  lemma {:induction false} DigitsValueOfFormat(n: nat)
    ensures DigitsValue(FormatNat(n)) == n
  {
    var s := FormatNat(n);
    if n >= 10 {
      DigitsValueOfFormat(n / 10);
      assert s[..|s| - 1] == FormatNat(n / 10);
    } else {
      assert s[..|s| - 1] == "";
    }
  }

  /** Printing an int64 and parsing it again is the identity. */
  lemma {:induction false} ParseFormat(n: int)
    requires Int64(n)
    ensures ParseInt(FormatInt(n)) == Some(n)
  {
    var s := FormatInt(n);
    if n < 0 {
      DigitsValueOfFormat(-n);
      assert s[1..] == FormatNat(-n);
    } else {
      DigitsValueOfFormat(n);
      assert IsDigit(s[0]);
    }
  }

  lemma FormatIntChars(n: int, c: char)
    requires !IsDigit(c) && c != '-'
    ensures c !in FormatInt(n)
  {
  }

  // ---- hexadecimal ----

  predicate IsHexDigit(c: char) { IsDigit(c) || 'a' <= c <= 'f' || 'A' <= c <= 'F' }

  predicate IsHex(s: string) { forall i | 0 <= i < |s| :: IsHexDigit(s[i]) }

  lemma HexFree(s: string, c: char)
    requires IsHex(s) && !IsHexDigit(c)
    ensures c !in s
  {
  }
}
