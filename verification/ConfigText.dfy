/** Text as the config codec sees it: lines, trimming, splitting, and decimals. */
module ConfigText {
  import opened Machine

  /** Unicode White_Space. */
  predicate IsSpace(c: char) {
    var n := c as int;
    (0x9 <= n <= 0xD) || n == 0x20 || n == 0x85 || n == 0xA0 || n == 0x1680 || (0x2000 <= n <= 0x200A)
    || n == 0x2028 || n == 0x2029 || n == 0x202F || n == 0x205F || n == 0x3000
  }

  predicate IsNewline(c: char) {
    c == '\n'
  }

  predicate IsEquals(c: char) {
    c == '='
  }

  predicate StartsComment(c: char) {
    c == '#' || c == ';'
  }

  /** The first index whose character satisfies `p`, or the length. */
  function Find(s: string, p: char -> bool): (i: nat)
    ensures i <= |s| && (forall k :: 0 <= k < i ==> !p(s[k])) && (i < |s| ==> p(s[i]))
  {
    if s == [] || p(s[0]) then 0 else 1 + Find(s[1..], p)
  }

  lemma FindIs(s: string, p: char -> bool, i: nat)
    requires i <= |s| && (forall k :: 0 <= k < i ==> !p(s[k])) && (i < |s| ==> p(s[i]))
    ensures Find(s, p) == i
  {
  }

  // ---- trimming ----------------------------------------------------------

  function TrimStart(s: string): (r: string) {
    if s != [] && IsSpace(s[0]) then TrimStart(s[1..]) else s
  }

  function TrimEnd(s: string): (r: string) {
    if s != [] && IsSpace(s[|s| - 1]) then TrimEnd(s[..|s| - 1]) else s
  }

  function Trim(s: string): (r: string) {
    TrimEnd(TrimStart(s))
  }

  predicate IsTrimmed(s: string) {
    s == [] || (!IsSpace(s[0]) && !IsSpace(s[|s| - 1]))
  }

  lemma {:induction false} TrimEndKeepsHead(s: string)
    ensures TrimEnd(s) <= s
    ensures TrimEnd(s) != [] ==> !IsSpace(TrimEnd(s)[|TrimEnd(s)| - 1])
  {
    if s != [] && IsSpace(s[|s| - 1]) {
      TrimEndKeepsHead(s[..|s| - 1]);
    }
  }

  lemma {:induction false} TrimStartKeepsTail(s: string)
    ensures |TrimStart(s)| <= |s| && TrimStart(s) == s[|s| - |TrimStart(s)|..]
    ensures TrimStart(s) != [] ==> !IsSpace(TrimStart(s)[0])
  {
    if s != [] && IsSpace(s[0]) {
      TrimStartKeepsTail(s[1..]);
    }
  }

  lemma TrimTrims(s: string)
    ensures IsTrimmed(Trim(s))
    ensures forall c :: c in Trim(s) ==> c in s
  {
    TrimStartKeepsTail(s);
    TrimEndKeepsHead(TrimStart(s));
  }

  lemma TrimmedStays(s: string)
    requires IsTrimmed(s)
    ensures Trim(s) == s
  {
  }

  lemma {:induction false} TrimEndIgnores(s: string, c: char)
    requires IsSpace(c)
    ensures TrimEnd(s + [c]) == TrimEnd(s)
  {
    assert (s + [c])[..|s|] == s;
  }

  /** Trailing whitespace does not matter to `Trim`. */
  lemma {:induction false} TrimIgnoresTrailing(s: string, c: char)
    requires IsSpace(c)
    ensures Trim(s + [c]) == Trim(s)
  {
    if s == [] {
      assert s + [c] == [c];
      assert TrimStart([c]) == TrimStart([]) by {
        assert [c][1..] == [];
      }
    } else if IsSpace(s[0]) {
      TrimIgnoresTrailing(s[1..], c);
      assert (s + [c])[1..] == s[1..] + [c];
    } else {
      TrimEndIgnores(s, c);
    }
  }

  // ---- lines -------------------------------------------------------------

  predicate EndsWithCr(s: string) {
    s != [] && s[|s| - 1] == '\r'
  }

  function StripCr(s: string): (r: string) {
    if EndsWithCr(s) then s[..|s| - 1] else s
  }

  /** Lines end at a newline, with a carriage return before it dropped; a last line
      without a newline is kept as it is. */
  function Lines(text: string): (r: seq<string>) {
    if text == [] then []
    else
      var i := Find(text, IsNewline);
      if i == |text| then [text] else [StripCr(text[..i])] + Lines(text[i + 1..])
  }

  function Unlines(lines: seq<string>): (r: string) {
    if lines == [] then [] else lines[0] + "\n" + Unlines(lines[1..])
  }

  predicate OneLine(s: string) {
    forall k :: 0 <= k < |s| ==> !IsNewline(s[k])
  }

  ghost predicate AllOneLine(lines: seq<string>) {
    forall i :: 0 <= i < |lines| ==> OneLine(lines[i])
  }

  function StripAll(lines: seq<string>): (r: seq<string>)
    ensures |r| == |lines|
    ensures forall i :: 0 <= i < |r| ==> r[i] == StripCr(lines[i])
  {
    seq(|lines|, i requires 0 <= i < |lines| => StripCr(lines[i]))
  }

  lemma {:induction false} LinesAreOneLine(text: string)
    ensures AllOneLine(Lines(text))
    decreases |text|
  {
    if text != [] {
      var i := Find(text, IsNewline);
      if i < |text| {
        LinesAreOneLine(text[i + 1..]);
      }
    }
  }

  /** Reading lines back from written lines loses only a carriage return at the end
      of each. */
  lemma {:induction false} LinesOfUnlines(lines: seq<string>)
    requires AllOneLine(lines)
    ensures Lines(Unlines(lines)) == StripAll(lines)
  {
    if lines != [] {
      var l, rest := lines[0], Unlines(lines[1..]);
      var text := l + "\n" + rest;
      FindIs(text, IsNewline, |l|);
      assert text[..|l|] == l && text[|l| + 1..] == rest;
      LinesOfUnlines(lines[1..]);
      assert StripAll(lines) == [StripCr(l)] + StripAll(lines[1..]);
    }
  }

  lemma {:induction false} UnlinesInjective(a: seq<string>, b: seq<string>)
    requires AllOneLine(a) && AllOneLine(b) && Unlines(a) == Unlines(b)
    ensures a == b
  {
    if a != [] && b != [] {
      var x, y := Unlines(a), Unlines(b);
      FindIs(x, IsNewline, |a[0]|);
      FindIs(y, IsNewline, |b[0]|);
      assert a[0] == x[..|a[0]|] && b[0] == y[..|b[0]|];
      assert Unlines(a[1..]) == x[|a[0]| + 1..] && Unlines(b[1..]) == y[|b[0]| + 1..];
      UnlinesInjective(a[1..], b[1..]);
      assert a == [a[0]] + a[1..] && b == [b[0]] + b[1..];
    }
  }

  // ---- decimals ----------------------------------------------------------

  predicate IsDigit(c: char) {
    '0' <= c <= '9'
  }

  function Digit(d: nat): (c: char)
    requires d < 10
    ensures IsDigit(c)
  {
    '0' + d as char
  }

  function Decimal(v: nat): (s: string)
    ensures s != [] && forall k :: 0 <= k < |s| ==> IsDigit(s[k])
  {
    if v < 10 then [Digit(v)] else Decimal(v / 10) + [Digit(v % 10)]
  }

  /** Accumulate digits; `None` on a non-digit or past 64 bits. */
  function ParseDigits(s: string): (r: Option<u64>) {
    if s == [] then Some(0)
    else
      var c := s[|s| - 1];
      var front := ParseDigits(s[..|s| - 1]);
      if front.None? || !IsDigit(c) then None
      else
        var v := front.value * 10 + (c as int - '0' as int);
        if v > U64_MAX then None else Some(v)
  }

  /** `str::parse::<u64>`: digits with an optional leading plus. */
  function ParseU64(s: string): (r: Option<u64>) {
    var digits := if s != [] && s[0] == '+' then s[1..] else s;
    if digits == [] then None else ParseDigits(digits)
  }

  lemma {:induction false} DecimalDigits(v: u64)
    ensures ParseDigits(Decimal(v)) == Some(v)
    decreases v
  {
    if v < 10 {
      assert Decimal(v)[..0] == [];
    } else {
      DecimalDigits(v / 10);
      assert Decimal(v)[..|Decimal(v)| - 1] == Decimal(v / 10);
    }
  }

  lemma ParseDecimal(v: u64)
    ensures ParseU64(Decimal(v)) == Some(v)
  {
    DecimalDigits(v);
    assert IsDigit(Decimal(v)[0]);
  }
}
