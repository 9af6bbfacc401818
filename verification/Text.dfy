/** The string functions that ports and iptables lines are read and written with. */
module Text {

  // ---------- splitting, joining, replacing ----------

  /** strings.Split on one character. */
  function Split(s: string, c: char): (parts: seq<string>)
    ensures parts != []
  {
    if s == "" then [""]
    else
      var rest := Split(s[1..], c);
      if s[0] == c then [""] + rest else [[s[0]] + rest[0]] + rest[1..]
  }

  function Join(parts: seq<string>, c: char): string {
    if parts == [] then ""
    else if |parts| == 1 then parts[0]
    else parts[0] + [c] + Join(parts[1..], c)
  }

  /** strings.ReplaceAll of one character by another. */
  function Replace(s: string, a: char, b: char): (r: string)
    ensures |r| == |s|
    ensures forall i :: 0 <= i < |s| ==> r[i] == if s[i] == a then b else s[i]
  {
    if s == "" then "" else [if s[0] == a then b else s[0]] + Replace(s[1..], a, b)
  }

  /** The first index of a character, or the length. */
  function IndexOf(s: string, c: char): (i: nat)
    ensures i <= |s|
    ensures i < |s| ==> s[i] == c
    ensures forall j :: 0 <= j < i ==> s[j] != c
    ensures i == |s| <==> c !in s
  {
    if s == "" || s[0] == c then 0 else 1 + IndexOf(s[1..], c)
  }

  lemma {:induction false} SplitPlain(s: string, c: char)
    requires c !in s
    ensures Split(s, c) == [s]
  {
    if s != "" {
      SplitPlain(s[1..], c);
      assert [s[0]] + s[1..] == s;
    }
  }

  lemma {:induction false} SplitHead(p: string, rest: string, c: char)
    requires c !in p
    ensures Split(p + [c] + rest, c) == [p] + Split(rest, c)
  {
    var s := p + [c] + rest;
    if p == "" {
      assert s[1..] == rest;
    } else {
      assert s[1..] == p[1..] + [c] + rest;
      SplitHead(p[1..], rest, c);
      assert [p[0]] + p[1..] == p;
    }
  }

  /** Splitting a join gives the parts back when none of them holds the separator. */
  lemma {:induction false} SplitJoin(parts: seq<string>, c: char)
    requires parts != []
    requires forall i :: 0 <= i < |parts| ==> c !in parts[i]
    ensures Split(Join(parts, c), c) == parts
  {
    if |parts| == 1 {
      SplitPlain(parts[0], c);
    } else {
      SplitHead(parts[0], Join(parts[1..], c), c);
      SplitJoin(parts[1..], c);
    }
  }

  lemma {:induction false} ReplaceConcat(x: string, y: string, a: char, b: char)
    ensures Replace(x + y, a, b) == Replace(x, a, b) + Replace(y, a, b)
  {
  }

  // ---------- decimal numbers ----------

  const MAX_UINT64: nat := 18446744073709551615
  const MAX_INT64: int := 9223372036854775807

  predicate IsDigit(c: char) { '0' <= c <= '9' }

  function DigitValue(c: char): (d: nat)
    requires IsDigit(c)
    ensures d <= 9
  {
    (c - '0') as nat
  }

  function DigitChar(d: nat): (c: char)
    requires d <= 9
    ensures IsDigit(c) && DigitValue(c) == d
  {
    '0' + d as char
  }

  datatype Scanned = Number(n: nat) | NotANumber | TooBig

  /** The digit loop of strconv.ParseUint in base 10. */
  function ScanDigits(s: string, acc: nat): Scanned {
    if s == "" then Number(acc)
    else if !IsDigit(s[0]) then NotANumber
    else
      var next := 10 * acc + DigitValue(s[0]);
      if next > MAX_UINT64 then TooBig else ScanDigits(s[1..], next)
  }

  datatype Parsed = Parsed(value: int, ok: bool)

  /** strconv.Atoi on a 64-bit platform, with the value that comes along with an error. */
  function Atoi(s: string): Parsed {
    var negative := s != "" && s[0] == '-';
    var digits := if s != "" && (s[0] == '-' || s[0] == '+') then s[1..] else s;
    if digits == "" then Parsed(0, false)
    else
      match ScanDigits(digits, 0)
      case NotANumber => Parsed(0, false)
      case TooBig => Parsed(if negative then -MAX_INT64 - 1 else MAX_INT64, false)
      case Number(n) =>
        if !negative && n > MAX_INT64 then Parsed(MAX_INT64, false)
        else if negative && n > MAX_INT64 + 1 then Parsed(-MAX_INT64 - 1, false)
        else Parsed(if negative then 0 - n else n, true)
  }

  /** strconv.Itoa for the numbers that ports are. */
  function Itoa(n: nat): (s: string)
    ensures s != "" && forall i :: 0 <= i < |s| ==> IsDigit(s[i])
  {
    if n < 10 then [DigitChar(n)] else Itoa(n / 10) + [DigitChar(n % 10)]
  }

  lemma {:induction false} ScanLast(s: string, acc: nat, d: char, n: nat)
    requires IsDigit(d) && ScanDigits(s, acc) == Number(n) && 10 * n + DigitValue(d) <= MAX_UINT64
    ensures ScanDigits(s + [d], acc) == Number(10 * n + DigitValue(d))
    decreases |s|
  {
    if s != "" {
      assert (s + [d])[1..] == s[1..] + [d];
      ScanLast(s[1..], 10 * acc + DigitValue(s[0]), d, n);
    } else {
      assert (s + [d])[1..] == "";
    }
  }

  lemma {:induction false} ScanItoa(n: nat)
    requires n <= MAX_UINT64
    ensures ScanDigits(Itoa(n), 0) == Number(n)
  {
    if n >= 10 {
      ScanItoa(n / 10);
      ScanLast(Itoa(n / 10), 0, DigitChar(n % 10), n / 10);
    } else {
      assert Itoa(n)[1..] == "";
    }
  }

  /** Reading a printed number gives it back. */
  lemma AtoiItoa(n: nat)
    requires n <= MAX_INT64
    ensures Atoi(Itoa(n)) == Parsed(n, true)
  {
    ScanItoa(n);
  }

  /** So it does behind a sign. */
  lemma AtoiSigned(n: nat)
    requires n <= MAX_INT64
    ensures Atoi("-" + Itoa(n)) == Parsed(0 - n, true) && Atoi("+" + Itoa(n)) == Parsed(n, true)
  {
    ScanItoa(n);
    assert ("-" + Itoa(n))[1..] == Itoa(n) && ("+" + Itoa(n))[1..] == Itoa(n);
  }

  lemma {:induction false} ScanRejects(s: string, acc: nat, i: nat)
    requires i < |s| && !IsDigit(s[i])
    ensures !ScanDigits(s, acc).Number?
    decreases |s|
  {
    if i > 0 && IsDigit(s[0]) {
      ScanRejects(s[1..], 10 * acc + DigitValue(s[0]), i - 1);
    }
  }

  /** A number holds no colon, and one with a dash is not positive. */
  lemma AtoiPunctuation(s: string)
    ensures ':' in s ==> !Atoi(s).ok
    ensures '-' in s && Atoi(s).ok ==> Atoi(s).value <= 0
  {
    var digits := if s != "" && (s[0] == '-' || s[0] == '+') then s[1..] else s;
    if exists i :: 0 <= i < |digits| && !IsDigit(digits[i]) {
      var i :| 0 <= i < |digits| && !IsDigit(digits[i]);
      ScanRejects(digits, 0, i);
    } else {
      assert ':' !in digits && '-' !in digits;
      assert s != "" ==> s == [s[0]] + s[1..];
    }
  }

  // ---------- port fields ----------

  datatype PortRange = PortRange(lo: int, hi: int, ok: bool)

  /** portRange of the conflict engine; the bounds are set even when parsing fails. */
  function ParseRange(p: string): PortRange {
    var q := Replace(p, ':', '-');
    var i := IndexOf(q, '-');
    if i < |q| then
      var lo, hi := Atoi(q[..i]), Atoi(q[i + 1..]);
      PortRange(lo.value, hi.value, lo.ok && hi.ok)
    else
      var n := Atoi(q);
      if n.ok then PortRange(n.value, n.value, true) else PortRange(0, 0, false)
  }

  /** validatePortField accepts the text. */
  predicate PortFieldOk(p: string) {
    if p == "" then true
    else if '-' in p || ':' in p then
      var sep := if ':' in p && '-' !in p then ':' else '-';
      var i := IndexOf(p, sep);
      var lo, hi := Atoi(p[..i]), Atoi(p[i + 1..]);
      lo.ok && hi.ok && !(lo.value < 1 || hi.value > 65535 || lo.value > hi.value)
    else
      var n := Atoi(p);
      n.ok && !(n.value < 1 || n.value > 65535)
  }

  predicate GoodRange(r: PortRange) { r.ok && 1 <= r.lo <= r.hi <= 65535 }

  /**
    The validator and the conflict engine split a range differently, but agree: a non-empty
    field is valid exactly when the engine reads it as a range of port numbers.
   */
  lemma ValidPortsParse(p: string)
    requires p != ""
    ensures PortFieldOk(p) <==> GoodRange(ParseRange(p))
  {
    var q := Replace(p, ':', '-');
    if '-' !in p && ':' !in p {
      assert q == p;
      assert '-' !in q;
    } else if ':' !in p {
      assert q == p;
    } else if '-' !in p {
      OnlyColons(p);
    } else {
      BothSeparators(p);
    }
  }

  predicate GoodPair(lo: Parsed, hi: Parsed) {
    lo.ok && hi.ok && 1 <= lo.value <= hi.value <= 65535
  }

  lemma ValidatedPair(p: string, i: nat)
    requires ':' in p && '-' !in p && i == IndexOf(p, ':')
    ensures PortFieldOk(p) <==> GoodPair(Atoi(p[..i]), Atoi(p[i + 1..]))
  {
  }

  lemma ParsedPair(p: string, q: string, i: nat)
    requires q == Replace(p, ':', '-') && i == IndexOf(q, '-') < |q|
    ensures GoodRange(ParseRange(p)) <==> GoodPair(Atoi(q[..i]), Atoi(q[i + 1..]))
  {
  }

  /** The two readings of what stands behind the first separator. */
  lemma SecondHalf(p: string, i: nat)
    requires i <= |p|
    ensures var x, y := p[i..], Replace(p, ':', '-')[i..];
      (Atoi(x).ok && Atoi(x).value > 0) || (Atoi(y).ok && Atoi(y).value > 0) ==> x == y
  {
    var x, y := p[i..], Replace(p, ':', '-')[i..];
    if ':' in x {
      AtoiPunctuation(x);
      ReplacedDash(p, i);
      AtoiPunctuation(y);
    } else {
      ReplacedNothing(p, i);
    }
  }

  lemma ReplacedNothing(p: string, i: nat)
    requires i <= |p| && ':' !in p[i..]
    ensures Replace(p, ':', '-')[i..] == p[i..]
  {
  }

  lemma OnlyColons(p: string)
    requires ':' in p && '-' !in p
    ensures PortFieldOk(p) <==> GoodRange(ParseRange(p))
  {
    var q, i := Replace(p, ':', '-'), IndexOf(p, ':');
    assert IndexOf(q, '-') == i && q[..i] == p[..i];
    ValidatedPair(p, i);
    ParsedPair(p, q, i);
    SecondHalf(p, i + 1);
  }

  /** A colon behind position i is a dash there after the replacement. */
  lemma ReplacedDash(p: string, i: nat)
    requires i <= |p| && ':' in p[i..]
    ensures '-' in Replace(p, ':', '-')[i..]
  {
  }

  lemma BothSeparators(p: string)
    requires ':' in p && '-' in p
    ensures !PortFieldOk(p) && !GoodRange(ParseRange(p))
  {
    BothFailValidation(p);
    BothFailParsing(p);
  }

  lemma BothFailValidation(p: string)
    requires ':' in p && '-' in p
    ensures !PortFieldOk(p)
  {
    var d, k := IndexOf(p, '-'), IndexOf(p, ':');
    if k < d {
      assert p[..d][k] == ':';
      AtoiPunctuation(p[..d]);
    } else {
      assert p[d + 1..][k - d - 1] == ':';
      AtoiPunctuation(p[d + 1..]);
    }
  }

  lemma BothFailParsing(p: string)
    requires ':' in p && '-' in p
    ensures !GoodRange(ParseRange(p))
  {
    var q := Replace(p, ':', '-');
    var d, k := IndexOf(p, '-'), IndexOf(p, ':');
    var i, other := IndexOf(q, '-'), if d < k then k else d;
    assert q[d] == '-' && q[k] == '-' && i < other;
    assert q[i + 1..][other - i - 1] == '-';
    AtoiPunctuation(q[i + 1..]);
    ParsedPair(p, q, i);
  }
}
