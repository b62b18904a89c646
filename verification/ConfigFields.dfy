/** What a config line means, on its characters: which lines set which key to which
    value, how whitespace and trailing comments are dropped, and which values are
    64-bit integers. */
module ConfigFields {
  import opened Machine
  import opened ConfigText
  import opened ConfigCodec

  predicate Blank(s: string) {
    forall k :: 0 <= k < |s| ==> IsSpace(s[k])
  }

  predicate Without(s: string, p: char -> bool) {
    forall k :: 0 <= k < |s| ==> !p(s[k])
  }

  /** Nothing, or a comment from its first character on. */
  predicate IsTail(s: string) {
    s == [] || s[0] in "#;"
  }

  // ---- trimming ----------------------------------------------------------

  lemma {:induction false} TrimEndCuts(s: string) returns (b: string)
    ensures s == TrimEnd(s) + b && Blank(b)
  {
    if s != [] && IsSpace(s[|s| - 1]) {
      b := TrimEndCuts(s[..|s| - 1]);
      b := b + [s[|s| - 1]];
    } else {
      b := [];
    }
  }

  lemma {:induction false} TrimStartCuts(s: string) returns (a: string)
    ensures s == a + TrimStart(s) && Blank(a)
  {
    if s != [] && IsSpace(s[0]) {
      a := TrimStartCuts(s[1..]);
      a := [s[0]] + a;
    } else {
      a := [];
    }
  }

  /** Trimming cuts whitespace off both ends and nothing else. */
  lemma TrimCuts(s: string) returns (a: string, b: string)
    ensures s == a + Trim(s) + b && Blank(a) && Blank(b) && IsTrimmed(Trim(s))
  {
    TrimTrims(s);
    a := TrimStartCuts(s);
    b := TrimEndCuts(TrimStart(s));
    hide TrimStart, TrimEnd, IsTrimmed, IsSpace;
  }

  lemma {:induction false} TrimStartSkips(a: string, t: string)
    requires Blank(a) && (t == [] || !IsSpace(t[0]))
    ensures TrimStart(a + t) == t
  {
    if a == [] {
      assert a + t == t;
    } else {
      assert (a + t)[1..] == a[1..] + t;
      TrimStartSkips(a[1..], t);
    }
  }

  lemma {:induction false} TrimIgnoresBlank(s: string, b: string)
    requires Blank(b)
    ensures Trim(s + b) == Trim(s)
  {
    hide IsSpace, Trim;
    if b == [] {
      assert s + b == s;
    } else {
      var n := |b| - 1;
      assert s + b == (s + b[..n]) + [b[n]];
      TrimIgnoresTrailing(s + b[..n], b[n]);
      TrimIgnoresBlank(s, b[..n]);
    }
  }

  /** So a trimmed text between whitespace is what remains. */
  lemma TrimIs(a: string, t: string, b: string)
    requires Blank(a) && Blank(b) && IsTrimmed(t)
    ensures Trim(a + t + b) == t
  {
    TrimIgnoresBlank(a + t, b);
    TrimStartSkips(a, t);
  }

  lemma TrimIgnores(a: string, s: string, b: string)
    requires Blank(a) && Blank(b)
    ensures Trim(a + s + b) == Trim(s)
  {
    hide Trim, IsSpace, IsTrimmed;
    var x, y := TrimCuts(s);
    assert a + s + b == (a + x) + Trim(s) + (y + b);
    TrimIs(a + x, Trim(s), y + b);
  }

  lemma BlankHead(a: string, s: string)
    requires Blank(a)
    ensures a != [] ==> IsSpace((a + s)[0])
    ensures a == [] ==> a + s == s
  {
  }

  lemma TrimKeepsFirst(s: string)
    requires s != [] && !IsSpace(s[0])
    ensures Trim(s) != [] && Trim(s)[0] == s[0]
  {
    var a, b := TrimCuts(s);
    hide Trim;
    BlankHead(a, Trim(s) + b);
    BlankHead(b, []);
    assert s == a + (Trim(s) + b) && b == b + [];
  }

  /** Two ways to cut one text in two. */
  lemma Align(p: string, q: string, r: string, s: string)
    requires p + q == r + s && |p| <= |r|
    ensures r == p + r[|p|..] && q == r[|p|..] + s
  {
    assert (p + q)[..|p|] == p && (p + q)[|p|..] == q && (r + s)[..|r|] == r;
    assert (r + s)[|p|..] == r[|p|..] + s;
  }

  // ---- values ------------------------------------------------------------

  lemma BlankHasNoComment(b: string)
    requires Blank(b)
    ensures Without(b, StartsComment) && Without(b, IsEquals)
  {
  }

  /** A value is what stands before its comment, trimmed. */
  lemma ValueIs(rhs: string, v: string, tail: string, b: string)
    requires Without(v, StartsComment) && IsTail(tail) && Blank(b) && rhs + b == v + tail
    ensures CleanValue(rhs) == Trim(v)
  {
    BlankHasNoComment(b);
    var x, y := TrimCuts(rhs);
    var val := Trim(rhs);
    BlankHasNoComment(x);
    BlankHasNoComment(y);
    hide Trim, IsTrimmed, IsSpace, StartsComment;
    if tail == [] {
      assert v == rhs + b;
      assert Without(val, StartsComment) by {
        forall k | 0 <= k < |val| ensures !StartsComment(val[k]) {
          assert val[k] == v[|x| + k];
        }
      }
      FindIs(val, StartsComment, |val|);
      assert v == [] + rhs + b;
      TrimIgnores([], rhs, b);
    } else {
      assert (v + tail)[|v|] == tail[0];
      assert |v| < |rhs|;
      assert |x| <= |v| < |x| + |val|;
      var c := |v| - |x|;
      assert x + (val + y + b) == v + tail;
      Align(x, val + y + b, v, tail);
      assert val[..c] == v[|x|..] by {
        assert (val + y + b)[..c] == v[|x|..];
      }
      forall k | 0 <= k < c ensures !StartsComment(val[k]) {
        assert val[k] == v[|x| + k];
      }
      assert val[c] == tail[0];
      FindIs(val, StartsComment, c);
      assert v == x + val[..c] + [];
      TrimIgnores(x, val[..c], []);
    }
  }

  // ---- lines -------------------------------------------------------------

  /** With an `=`, the key is what stands before the first one, trimmed, and the value
      what stands between it and the next comment, trimmed. */
  lemma EqualsLineMeans(lhs: string, v: string, tail: string)
    requires Without(lhs, IsEquals) && Without(v, StartsComment) && IsTail(tail)
    requires Trim(lhs) == [] || !StartsComment(Trim(lhs)[0])
    ensures LineKey(lhs + "=" + v + tail) == Some(Trim(lhs)) && LineValue(lhs + "=" + v + tail) == Trim(v)
  {
    var line := lhs + "=" + v + tail;
    var a, b := TrimCuts(line);
    var t := Trim(line);
    BlankHasNoComment(a);
    BlankHasNoComment(b);
    hide *;
    assert a + t + b == lhs + "=" + (v + tail);
    var e := CutAtEquals(a, t, b, lhs, v + tail);
    var l := lhs[|a|..];
    EqualsSplits(t, e);
    assert lhs == a + l + [];
    TrimIgnores(a, l, []);
    EqualsLineIsRead(t, l);
    ValueIs(t[e + 1..], v, tail, b);
    SplitReads(line, t, l, t[e + 1..]);
  }

  lemma CharAt(a: string, t: string, b: string, i: nat)
    requires i < |a + t + b|
    ensures (a + t + b)[i]
         == if i < |a| then a[i] else if i < |a| + |t| then t[i - |a|] else b[i - |a| - |t|]
  {
  }

  lemma CutAtEquals(a: string, t: string, b: string, lhs: string, rest: string) returns (e: nat)
    requires a + t + b == lhs + "=" + rest
    requires Without(lhs, IsEquals) && Without(a, IsEquals) && Without(b, IsEquals)
    ensures e < |t| && |a| <= |lhs| && t[..e] == lhs[|a|..] && t[e] == '=' && t[e + 1..] + b == rest
    ensures lhs == a + lhs[|a|..] && Without(t[..e], IsEquals)
  {
    var line := a + t + b;
    assert line[|lhs|] == '=' by {
      assert (lhs + "=" + rest)[|lhs|] == '=';
    }
    CharAt(a, t, b, |lhs|);
    e := |lhs| - |a|;
    assert a + (t + b) == line && lhs + ("=" + rest) == lhs + "=" + rest;
    Align(a, t + b, lhs, "=" + rest);
    var l := lhs[|a|..];
    assert (l + "=") + rest == l + ("=" + rest);
    Align(l + "=", rest, t, b);
    assert (l + "=")[e] == '=';
  }

  lemma EqualsSplits(t: string, e: nat)
    requires e < |t| && t[e] == '=' && Without(t[..e], IsEquals)
    ensures Split(t) == Some((t[..e], t[e + 1..]))
  {
    forall k | 0 <= k < e ensures !IsEquals(t[k]) {
      assert t[..e][k] == t[k];
    }
    FindIs(t, IsEquals, e);
  }

  /** A trimmed line with such a left side is not read as a comment. */
  lemma EqualsLineIsRead(t: string, l: string)
    requires IsTrimmed(t) && |l| < |t| && l == t[..|l|] && t[|l|] == '='
    requires Trim(l) == [] || !StartsComment(Trim(l)[0])
    ensures t != [] && !StartsComment(t[0])
  {
    hide Trim, IsSpace;
    if l != [] {
      assert l[0] == t[0];
      TrimKeepsFirst(l);
    }
  }

  lemma SplitReads(line: string, t: string, lhs: string, rhs: string)
    requires t == Trim(line) && Split(t) == Some((lhs, rhs)) && t != [] && !StartsComment(t[0])
    ensures LineKey(line) == Some(Trim(lhs)) && LineValue(line) == CleanValue(rhs)
  {
  }

  /** Without one, the key is the first word, and the value what stands between it and
      the next comment, trimmed. */
  lemma SpaceLineMeans(a: string, word: string, c: char, v: string, tail: string)
    requires Blank(a) && IsSpace(c) && Without(v, StartsComment) && IsTail(tail) && !Blank(v + tail)
    requires word != [] && Without(word, IsSpace) && !StartsComment(word[0])
    requires Without(word, IsEquals) && Without(v + tail, IsEquals)
    ensures LineKey(a + word + [c] + v + tail) == Some(word) && LineValue(a + word + [c] + v + tail) == Trim(v)
  {
    var rest := v + tail;
    var x, b := TrimCuts(rest);
    assert !IsSpace(word[0]);
    hide *;
    NonBlankRest(word, c, rest, x, b);
    var kept := x + Trim(rest);
    assert word + [c] + x + Trim(rest) == word + [c] + kept;
    Regroup(a, word + [c], kept, b, v, tail);
    assert a + (word + [c]) == a + word + [c];
    WordIsRead(a, word, c, kept, b, v, tail);
  }

  lemma WordIsRead(a: string, word: string, c: char, kept: string, b: string, v: string, tail: string)
    requires Blank(a) && Blank(b) && IsSpace(c) && kept + b == v + tail && IsTrimmed(word + [c] + kept)
    requires Without(v, StartsComment) && IsTail(tail) && word != [] && Without(word, IsSpace)
    requires !StartsComment(word[0]) && Without(word, IsEquals) && Without(v + tail, IsEquals)
    ensures LineKey(a + (word + [c] + kept) + b) == Some(word)
    ensures LineValue(a + (word + [c] + kept) + b) == Trim(v)
  {
    hide *;
    var t := word + [c] + kept;
    TrimIs(a, t, b);
    assert t[0] == word[0] && t[|word| + 1..] == kept;
    WordSplits(word, c, kept, t, v + tail, b);
    ValueIs(kept, v, tail, b);
    WordStays(word);
    SplitReads(a + t + b, t, word, kept);
  }

  lemma Regroup(a: string, w: string, k: string, b: string, v: string, tail: string)
    requires k + b == v + tail
    ensures a + (w + k) + b == a + w + v + tail
  {
    assert a + (w + k) + b == a + w + (k + b);
  }

  lemma NonBlankRest(word: string, c: char, rest: string, x: string, b: string)
    requires rest == x + Trim(rest) + b && Blank(x) && Blank(b) && !Blank(rest) && IsTrimmed(Trim(rest))
    requires word != [] && !IsSpace(word[0])
    ensures Trim(rest) != [] && IsTrimmed(word + [c] + x + Trim(rest))
  {
    hide Trim;
    assert forall k :: 0 <= k < |x + b| ==> IsSpace((x + b)[k]);
    assert x + [] + b == x + b;
    if Trim(rest) == [] {
      assert false;
    }
  }

  lemma WordSplits(word: string, c: char, tail: string, t: string, rest: string, b: string)
    requires t == word + [c] + tail && tail + b == rest
    requires IsSpace(c) && Without(word, IsSpace) && Without(word, IsEquals) && Without(rest, IsEquals)
    ensures Split(t) == Some((word, t[|word| + 1..]))
  {
    forall k | 0 <= k < |t| ensures !IsEquals(t[k]) {
      if k > |word| {
        assert t[k] == rest[k - |word| - 1];
      }
    }
    FindIs(t, IsEquals, |t|);
    FindIs(t, IsSpace, |word|);
    assert t[..|word|] == word;
  }

  lemma WordStays(word: string)
    requires Without(word, IsSpace)
    ensures Trim(word) == word
  {
    TrimmedStays(word);
  }

  /** A line that begins with a comment sets nothing. */
  lemma CommentLineMeans(a: string, c: char, rest: string)
    requires Blank(a) && c in "#;"
    ensures LineKey(a + [c] + rest) == None
  {
    var s := [c] + rest;
    assert a + [c] + rest == a + s + [];
    TrimIgnores(a, s, []);
    TrimKeepsFirst(s);
    hide Trim, Split;
  }

  /** Nor does a blank line, nor a single word. */
  lemma BareLineMeans(a: string, word: string, b: string)
    requires Blank(a) && Blank(b) && Without(word, IsSpace) && Without(word, IsEquals)
    ensures LineKey(a + word + b) == None
  {
    TrimIs(a, word, b);
    FindIs(word, IsEquals, |word|);
    FindIs(word, IsSpace, |word|);
    hide Trim;
  }

  // ---- texts -------------------------------------------------------------

  /** The value of a key is that of the first line that sets it. */
  lemma {:induction false} FirstValueIff(lines: seq<string>, key: string, v: string)
    ensures FirstValue(lines, key) == Some(v)
       <==> exists i :: 0 <= i < |lines| && LineKey(lines[i]) == Some(key) && LineValue(lines[i]) == v
                        && forall j :: 0 <= j < i ==> LineKey(lines[j]) != Some(key)
  {
    hide LineKey, LineValue;
    if lines != [] && LineKey(lines[0]) != Some(key) {
      var rest := lines[1..];
      FirstValueIff(rest, key, v);
      if i :| 0 <= i < |rest| && LineKey(rest[i]) == Some(key) && LineValue(rest[i]) == v
              && forall j :: 0 <= j < i ==> LineKey(rest[j]) != Some(key) {
        assert lines[i + 1] == rest[i];
        forall j | 0 <= j < i + 1 ensures LineKey(lines[j]) != Some(key) {
          assert j > 0 ==> lines[j] == rest[j - 1];
        }
      }
      if i :| 0 <= i < |lines| && LineKey(lines[i]) == Some(key) && LineValue(lines[i]) == v
              && forall j :: 0 <= j < i ==> LineKey(lines[j]) != Some(key) {
        assert rest[i - 1] == lines[i];
        forall j | 0 <= j < i - 1 ensures LineKey(rest[j]) != Some(key) {
          assert lines[j + 1] == rest[j];
        }
      }
    }
  }

  // ---- integers ----------------------------------------------------------

  function Power10(n: nat): (r: nat) {
    if n == 0 then 1 else 10 * Power10(n - 1)
  }

  /** The positional value of digits, the first one leading. */
  function Positional(s: string): (r: int) {
    if s == [] then 0 else (s[0] as int - '0' as int) * Power10(|s| - 1) + Positional(s[1..])
  }

  predicate AllDigits(s: string) {
    forall k :: 0 <= k < |s| ==> IsDigit(s[k])
  }

  lemma {:induction false} PositionalSnoc(s: string, c: char)
    ensures Positional(s + [c]) == 10 * Positional(s) + (c as int - '0' as int)
  {
    if s == [] {
      assert (s + [c])[1..] == [];
    } else {
      PositionalSnoc(s[1..], c);
      assert (s + [c])[1..] == s[1..] + [c];
      var d, p := s[0] as int - '0' as int, Power10(|s| - 1);
      assert d * (10 * p) == 10 * (d * p);
    }
  }

  lemma {:induction false} PositionalSign(s: string)
    requires AllDigits(s)
    ensures Positional(s) >= 0
  {
    if s != [] {
      PositionalSign(s[1..]);
    }
  }

  /** Digits accumulate to their positional value, unless it needs more than 64 bits. */
  lemma {:induction false} DigitsIff(s: string, v: u64)
    ensures ParseDigits(s) == Some(v) <==> AllDigits(s) && Positional(s) == v
  {
    if s != [] {
      var n := |s| - 1;
      var front, c := s[..n], s[n];
      assert s == front + [c];
      PositionalSnoc(front, c);
      assert AllDigits(s) <==> AllDigits(front) && IsDigit(c);
      hide Positional;
      if AllDigits(front) {
        PositionalSign(front);
        if Positional(front) <= U64_MAX {
          DigitsIff(front, Positional(front));
        }
      }
      if ParseDigits(front).Some? {
        DigitsIff(front, ParseDigits(front).value);
      }
    }
  }

  /** Exactly which texts are 64-bit integers, and which: an optional plus and at least
      one digit, whose positional value fits. */
  lemma ParseIff(s: string, v: u64)
    ensures ParseU64(s) == Some(v)
       <==> exists plus, digits :: s == plus + digits && plus in ["", "+"] && digits != [] && AllDigits(digits)
                                   && Positional(digits) == v
  {
    hide ParseDigits, Positional;
    var digits := if s != [] && s[0] == '+' then s[1..] else s;
    DigitsIff(digits, v);
    if ParseU64(s) == Some(v) {
      var plus := if s != [] && s[0] == '+' then "+" else "";
      assert s == plus + digits && plus in ["", "+"];
    }
    if plus, d :| s == plus + d && plus in ["", "+"] && d != [] && AllDigits(d) && Positional(d) == v {
      if plus == "" {
        assert s == d && IsDigit(d[0]);
      } else {
        assert s[1..] == d;
      }
      assert d == digits;
    }
  }
}
