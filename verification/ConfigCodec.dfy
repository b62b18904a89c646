/** The config-line codec: one reader and one writer over arbitrary text, the loops
    the source runs, and the laws that tie them together. */
module ConfigCodec {
  import opened Machine
  import opened ConfigText

  // ---- one line ----------------------------------------------------------

  predicate IsSkipped(trimmed: string) {
    trimmed == [] || StartsComment(trimmed[0])
  }

  /** Key and value sides of a trimmed line: split at the first `=`, else at the
      first whitespace. */
  function Split(trimmed: string): (r: Option<(string, string)>) {
    var e := Find(trimmed, IsEquals);
    if e < |trimmed| then Some((trimmed[..e], trimmed[e + 1..]))
    else
      var w := Find(trimmed, IsSpace);
      if w < |trimmed| then Some((trimmed[..w], trimmed[w + 1..])) else None
  }

  /** The key a line sets, if it sets one. */
  function LineKey(line: string): (r: Option<string>) {
    var t := Trim(line);
    if IsSkipped(t) || Split(t).None? then None else Some(Trim(Split(t).value.0))
  }

  /** A value with its trailing comment cut off. */
  function CleanValue(rhs: string): (r: string) {
    var val := Trim(rhs);
    var c := Find(val, StartsComment);
    if c < |val| then Trim(val[..c]) else val
  }

  function LineValue(line: string): (r: string)
    requires LineKey(line).Some?
  {
    CleanValue(Split(Trim(line)).value.1)
  }

  function EqualsLine(key: string, value: nat): (r: string) {
    key + " = " + Decimal(value)
  }

  function SpaceLine(key: string, value: nat): (r: string) {
    key + " " + Decimal(value)
  }

  /** The rewritten line keeps the separator style of the old one. */
  function NewLine(line: string, key: string, value: nat): (r: string) {
    if Find(line, IsEquals) < |line| then EqualsLine(key, value) else SpaceLine(key, value)
  }

  // ---- whole texts -------------------------------------------------------

  function FirstValue(lines: seq<string>, key: string): (r: Option<string>) {
    if lines == [] then None
    else if LineKey(lines[0]) == Some(key) then Some(LineValue(lines[0]))
    else FirstValue(lines[1..], key)
  }

  function ReadText(text: string, key: string): (r: Option<string>) {
    FirstValue(Lines(text), key)
  }

  /** Rewrite the first line that sets `key`, or append one. */
  function Replace(lines: seq<string>, key: string, value: nat): (r: seq<string>) {
    if lines == [] then [EqualsLine(key, value)]
    else if LineKey(lines[0]) == Some(key) then [NewLine(lines[0], key, value)] + lines[1..]
    else [lines[0]] + Replace(lines[1..], key, value)
  }

  function WriteText(text: string, key: string, value: nat): (r: string) {
    Unlines(Replace(Lines(text), key, value))
  }

  // ---- the loops ---------------------------------------------------------

  method ParseConfigValue(text: string, key: string) returns (r: Option<string>)
    ensures r == ReadText(text, key)
  {
    var lines := Lines(text);
    for i := 0 to |lines|
      invariant FirstValue(lines, key) == FirstValue(lines[i..], key)
    {
      var trimmed := Trim(lines[i]);
      if IsSkipped(trimmed) {
        continue;
      }
      var split := Split(trimmed);
      if split.None? {
        continue;
      }
      if Trim(split.value.0) == key {
        var val := Trim(split.value.1);
        var idx := Find(val, StartsComment);
        if idx < |val| {
          val := Trim(val[..idx]);
        }
        return Some(val);
      }
    }
    return None;
  }

  /** What is still to be written from line `i` on. */
  ghost function Pending(lines: seq<string>, i: nat, replaced: bool, key: string, value: nat): (r: seq<string>)
    requires i <= |lines|
  {
    if replaced then lines[i..] else Replace(lines[i..], key, value)
  }

  lemma PendingStep(lines: seq<string>, i: nat, replaced: bool, key: string, value: nat)
    requires i < |lines|
    ensures var hit := LineKey(lines[i]) == Some(key) && !replaced;
            Pending(lines, i, replaced, key, value)
            == [if hit then NewLine(lines[i], key, value) else lines[i]]
               + Pending(lines, i + 1, replaced || hit, key, value)
  {
    assert lines[i..] == [lines[i]] + lines[i + 1..];
  }

  lemma AppendLine(out: string, line: string, rest: seq<string>)
    ensures out + Unlines([line] + rest) == out + line + "\n" + Unlines(rest)
  {
    assert ([line] + rest)[1..] == rest;
  }

  method RenderConfigValue(text: string, key: string, value: u64) returns (out: string)
    ensures out == WriteText(text, key, value)
  {
    hide LineKey, NewLine, Unlines, EqualsLine;
    var lines := Lines(text);
    out := "";
    var replaced := false;
    assert lines[0..] == lines;
    for i := 0 to |lines|
      invariant out + Unlines(Pending(lines, i, replaced, key, value)) == WriteText(text, key, value)
    {
      var line := lines[i];
      PendingStep(lines, i, replaced, key, value);
      var hit := LineKey(line) == Some(key) && !replaced;
      var rendered := if hit then NewLine(line, key, value) else line;
      AppendLine(out, rendered, Pending(lines, i + 1, replaced || hit, key, value));
      hide Pending;
      out := out + rendered + "\n";
      replaced := replaced || hit;
    }
    PendingEnd(lines, replaced, key, value);
    AppendLine(out, EqualsLine(key, value), []);
    NoLines();
    if !replaced {
      out := out + EqualsLine(key, value) + "\n";
    }
  }

  lemma PendingEnd(lines: seq<string>, replaced: bool, key: string, value: nat)
    ensures Pending(lines, |lines|, replaced, key, value) == if replaced then [] else [EqualsLine(key, value)] + []
  {
  }

  lemma NoLines()
    ensures Unlines([]) == ""
  {
  }

  // ---- which keys can be written -----------------------------------------

  /** Trimmed, on one line, without `=`, and not read as a comment. */
  predicate Writable(key: string) {
    && IsTrimmed(key) && OneLine(key)
    && Find(key, IsEquals) == |key|
    && (key == [] || !StartsComment(key[0]))
  }

  lemma TrimHead(s: string, n: nat)
    requires n <= |s| && (s != [] ==> !IsSpace(s[0]))
    ensures Trim(s[..n]) <= s[..n]
  {
    TrimEndKeepsHead(s[..n]);
  }

  /** Every key a line can set is writable: other keys are never read back. */
  lemma LineKeysAreWritable(line: string)
    requires OneLine(line) && LineKey(line).Some?
    ensures Writable(LineKey(line).value)
  {
    var t := Trim(line);
    var lhs := Split(t).value.0;
    var n := |lhs|;
    TrimTrims(line);
    TrimTrims(lhs);
    assert lhs == t[..n];
    TrimHead(t, n);
    var key := Trim(lhs);
    forall k | 0 <= k < |key| ensures !IsEquals(key[k]) && !IsNewline(key[k]) {
      assert key[k] == t[k] && t[k] in t;
    }
    FindIs(key, IsEquals, |key|);
  }

  lemma DigitsArePlain(v: nat, k: nat)
    requires k < |Decimal(v)|
    ensures var c := Decimal(v)[k];
            !IsSpace(c) && !IsNewline(c) && !IsEquals(c) && !StartsComment(c) && c != '\r'
  {
    assert IsDigit(Decimal(v)[k]);
  }

  lemma DecimalIsClean(rhs: string, v: nat)
    requires rhs == Decimal(v) || rhs == " " + Decimal(v)
    ensures CleanValue(rhs) == Decimal(v)
  {
    var d := Decimal(v);
    DigitsArePlain(v, 0);
    DigitsArePlain(v, |d| - 1);
    TrimmedStays(d);
    assert (" " + d)[1..] == d;
    forall k | 0 <= k < |d| ensures !StartsComment(d[k]) {
      DigitsArePlain(v, k);
    }
    FindIs(d, StartsComment, |d|);
  }

  lemma TrimDropsSpace(s: string)
    ensures Trim(s + " ") == Trim(s)
  {
    TrimIgnoresTrailing(s, ' ');
  }

  lemma DecimalIsPlain(v: nat)
    ensures forall k :: 0 <= k < |Decimal(v)| ==>
      var c := Decimal(v)[k];
      !IsSpace(c) && !IsNewline(c) && !IsEquals(c) && !StartsComment(c) && c != '\r'
  {
    forall k | 0 <= k < |Decimal(v)|
      ensures var c := Decimal(v)[k];
              !IsSpace(c) && !IsNewline(c) && !IsEquals(c) && !StartsComment(c) && c != '\r'
    {
      DigitsArePlain(v, k);
    }
  }

  lemma EqualsLineShape(key: string, v: nat)
    requires Writable(key)
    ensures OneLine(EqualsLine(key, v)) && !EndsWithCr(EqualsLine(key, v))
    ensures Find(EqualsLine(key, v), IsEquals) == |key| + 1
  {
    hide IsSpace, StartsComment;
    DecimalIsPlain(v);
    FindIs(EqualsLine(key, v), IsEquals, |key| + 1);
  }

  lemma EmptyKeySplits(v: nat)
    ensures Trim(EqualsLine("", v)) == "= " + Decimal(v)
    ensures Split("= " + Decimal(v)) == Some(("", " " + Decimal(v)))
  {
    hide Decimal;
    var t := "= " + Decimal(v);
    DecimalIsPlain(v);
    assert EqualsLine("", v)[1..] == t;
    TrimmedStays(t);
    FindIs(t, IsEquals, 0);
    assert t[1..] == " " + Decimal(v);
  }

  lemma NamedKeySplits(key: string, v: nat)
    requires Writable(key) && key != []
    ensures Trim(EqualsLine(key, v)) == EqualsLine(key, v)
    ensures Split(EqualsLine(key, v)) == Some((key + " ", " " + Decimal(v)))
  {
    hide Decimal;
    var line := EqualsLine(key, v);
    DecimalIsPlain(v);
    TrimmedStays(line);
    EqualsLineShape(key, v);
    assert line[..|key| + 1] == key + " " && line[|key| + 2..] == " " + Decimal(v);
  }

  /** A line written with `=` reads back as its key and its value. */
  lemma EqualsLineReads(key: string, v: nat)
    requires Writable(key)
    ensures LineKey(EqualsLine(key, v)) == Some(key) && LineValue(EqualsLine(key, v)) == Decimal(v)
    ensures OneLine(EqualsLine(key, v)) && !EndsWithCr(EqualsLine(key, v))
  {
    EqualsLineShape(key, v);
    DecimalIsClean(" " + Decimal(v), v);
    hide Decimal, CleanValue, Split, Find, IsSpace;
    if key == [] {
      EmptyKeySplits(v);
    } else {
      NamedKeySplits(key, v);
      TrimDropsSpace(key);
      TrimmedStays(key);
    }
  }

  /** A line written with a space does too, for a key without inner whitespace. */
  lemma SpaceLineReads(key: string, v: nat)
    requires Writable(key) && key != [] && Find(key, IsSpace) == |key|
    ensures LineKey(SpaceLine(key, v)) == Some(key) && LineValue(SpaceLine(key, v)) == Decimal(v)
    ensures OneLine(SpaceLine(key, v)) && !EndsWithCr(SpaceLine(key, v))
    ensures Find(SpaceLine(key, v), IsEquals) == |SpaceLine(key, v)|
  {
    hide Decimal;
    var line, d := SpaceLine(key, v), Decimal(v);
    DecimalIsPlain(v);
    TrimmedStays(line);
    FindIs(line, IsEquals, |line|);
    FindIs(line, IsSpace, |key|);
    assert line[..|key|] == key && line[|key| + 1..] == d;
    TrimmedStays(key);
    DecimalIsClean(d, v);
  }

  /** A line that sets `key` without `=` has a key free of whitespace. */
  lemma SpaceStyleKey(line: string, key: string)
    requires LineKey(line) == Some(key) && Find(line, IsEquals) == |line|
    ensures key != [] && Find(key, IsSpace) == |key|
  {
    var t := Trim(line);
    TrimTrims(line);
    NoEqualsWithin(line, t);
    SplitsAtSpace(t);
    hide Trim, Find, IsSpace, IsTrimmed, Split, IsEquals, StartsComment;
    PrefixIsKey(t, Find(t, IsSpace));
  }

  lemma SplitsAtSpace(t: string)
    requires Find(t, IsEquals) == |t|
    ensures Split(t).Some? ==> Split(t).value.0 == t[..Find(t, IsSpace)]
  {
  }

  lemma NoEqualsWithin(line: string, t: string)
    requires Find(line, IsEquals) == |line| && forall c :: c in t ==> c in line
    ensures Find(t, IsEquals) == |t|
  {
    forall k | 0 <= k < |t| ensures !IsEquals(t[k]) {
      assert t[k] in line;
      var j :| 0 <= j < |line| && line[j] == t[k];
    }
    FindIs(t, IsEquals, |t|);
  }

  lemma PrefixIsKey(t: string, w: nat)
    requires t != [] && IsTrimmed(t) && w == Find(t, IsSpace)
    ensures w > 0 && Trim(t[..w]) == t[..w] && Find(t[..w], IsSpace) == w
  {
    TrimmedStays(t[..w]);
    FindIs(t[..w], IsSpace, w);
  }

  lemma NewLineReads(line: string, key: string, v: nat)
    requires Writable(key) && LineKey(line) == Some(key)
    ensures LineKey(NewLine(line, key, v)) == Some(key) && LineValue(NewLine(line, key, v)) == Decimal(v)
    ensures OneLine(NewLine(line, key, v)) && !EndsWithCr(NewLine(line, key, v))
    ensures forall u: nat :: NewLine(NewLine(line, key, v), key, u) == NewLine(line, key, u)
  {
    if Find(line, IsEquals) < |line| {
      EqualsLineReads(key, v);
      EqualsLineShape(key, v);
    } else {
      SpaceStyleKey(line, key);
      SpaceLineReads(key, v);
    }
    hide LineKey, LineValue, EqualsLine, SpaceLine, Writable, OneLine, EndsWithCr, Find;
  }

  lemma StripKeepsReading(line: string)
    ensures LineKey(StripCr(line)) == LineKey(line)
    ensures LineKey(line).Some? ==> LineValue(StripCr(line)) == LineValue(line)
  {
    if EndsWithCr(line) {
      assert line == line[..|line| - 1] + ['\r'];
      TrimIgnoresTrailing(line[..|line| - 1], '\r');
    }
  }

  lemma {:induction false} StripKeepsValues(lines: seq<string>, key: string)
    ensures FirstValue(StripAll(lines), key) == FirstValue(lines, key)
  {
    if lines != [] {
      StripKeepsReading(lines[0]);
      StripKeepsValues(lines[1..], key);
      assert StripAll(lines)[1..] == StripAll(lines[1..]);
    }
  }

  lemma {:induction false} ReplaceIsOneLine(lines: seq<string>, key: string, v: nat)
    requires Writable(key) && AllOneLine(lines)
    ensures AllOneLine(Replace(lines, key, v))
  {
    hide LineKey, NewLine, EqualsLine, OneLine, Writable;
    if lines == [] {
      EqualsLineReads(key, v);
    } else if LineKey(lines[0]) == Some(key) {
      NewLineReads(lines[0], key, v);
    } else {
      ReplaceIsOneLine(lines[1..], key, v);
    }
  }

  /** What any key reads in a written text. */
  lemma WrittenReads(text: string, key: string, v: nat, other: string)
    requires Writable(key)
    ensures ReadText(WriteText(text, key, v), other) == FirstValue(Replace(Lines(text), key, v), other)
  {
    var lines := Replace(Lines(text), key, v);
    LinesAreOneLine(text);
    ReplaceIsOneLine(Lines(text), key, v);
    LinesOfUnlines(lines);
    StripKeepsValues(lines, other);
  }

  // ---- the laws ----------------------------------------------------------

  lemma {:induction false} ReplaceSets(lines: seq<string>, key: string, v: nat)
    requires Writable(key)
    ensures FirstValue(Replace(lines, key, v), key) == Some(Decimal(v))
  {
    if lines == [] {
      EqualsLineReads(key, v);
    } else if LineKey(lines[0]) == Some(key) {
      NewLineReads(lines[0], key, v);
    } else {
      ReplaceSets(lines[1..], key, v);
      assert Replace(lines, key, v)[1..] == Replace(lines[1..], key, v);
    }
  }

  lemma {:induction false} UnwritableIsAbsent(lines: seq<string>, key: string)
    requires AllOneLine(lines) && !Writable(key)
    ensures FirstValue(lines, key) == None
  {
    if lines != [] {
      if LineKey(lines[0]).Some? {
        LineKeysAreWritable(lines[0]);
      }
      UnwritableIsAbsent(lines[1..], key);
    }
  }

  /** Reading after writing gives back exactly the value, for exactly the writable
      keys; any other key is never read back at all. */
  lemma ReadBackIff(text: string, key: string, v: nat)
    ensures ReadText(WriteText(text, key, v), key) == Some(Decimal(v)) <==> Writable(key)
  {
    if Writable(key) {
      WrittenReads(text, key, v, key);
      ReplaceSets(Lines(text), key, v);
    } else {
      LinesAreOneLine(WriteText(text, key, v));
      UnwritableIsAbsent(Lines(WriteText(text, key, v)), key);
    }
  }

  lemma {:induction false} ReplaceLeavesOthers(lines: seq<string>, key: string, v: nat, other: string)
    requires Writable(key) && other != key
    ensures FirstValue(Replace(lines, key, v), other) == FirstValue(lines, other)
  {
    if lines == [] {
      EqualsLineReads(key, v);
    } else if LineKey(lines[0]) == Some(key) {
      NewLineReads(lines[0], key, v);
      assert Replace(lines, key, v)[1..] == lines[1..];
    } else {
      ReplaceLeavesOthers(lines[1..], key, v, other);
      assert Replace(lines, key, v)[1..] == Replace(lines[1..], key, v);
    }
  }

  /** Every other key, whatever it is, reads as before. */
  lemma OtherKeysUntouched(text: string, key: string, v: nat, other: string)
    requires Writable(key) && other != key
    ensures ReadText(WriteText(text, key, v), other) == ReadText(text, other)
  {
    WrittenReads(text, key, v, other);
    ReplaceLeavesOthers(Lines(text), key, v, other);
  }

  /** The lines a write of `key` copies unchanged. */
  function Untouched(lines: seq<string>, key: string): (r: seq<string>) {
    if lines == [] then []
    else if LineKey(lines[0]) == Some(key) then lines[1..]
    else [lines[0]] + Untouched(lines[1..], key)
  }

  /** A write copies every other line, in order, and keeps the separator style of
      the one it rewrites. */
  lemma {:induction false} CopiesOtherLines(lines: seq<string>, key: string, v: nat)
    requires Writable(key)
    ensures Untouched(Replace(lines, key, v), key) == Untouched(lines, key)
    ensures |Replace(lines, key, v)| == |Untouched(lines, key)| + 1
  {
    hide LineKey, NewLine, EqualsLine;
    if lines == [] {
      EqualsLineReads(key, v);
    } else if LineKey(lines[0]) == Some(key) {
      NewLineReads(lines[0], key, v);
    } else {
      CopiesOtherLines(lines[1..], key, v);
      assert Replace(lines, key, v)[1..] == Replace(lines[1..], key, v);
    }
  }

  lemma KeepsSeparator(line: string, key: string, v: nat)
    requires Writable(key) && LineKey(line) == Some(key)
    ensures Find(NewLine(line, key, v), IsEquals) < |NewLine(line, key, v)| <==> Find(line, IsEquals) < |line|
  {
    if Find(line, IsEquals) < |line| {
      EqualsLineShape(key, v);
    } else {
      SpaceStyleKey(line, key);
      SpaceLineReads(key, v);
    }
  }

  predicate NoTrailingCr(lines: seq<string>) {
    forall i :: 0 <= i < |lines| ==> !EndsWithCr(lines[i])
  }

  lemma StripHead(line: string, rest: seq<string>)
    ensures StripAll([line] + rest) == [StripCr(line)] + StripAll(rest)
  {
  }

  lemma SameTails(a: string, b: string, s: seq<string>, t: seq<string>)
    ensures [a] + s == [b] + t <==> a == b && s == t
  {
    if [a] + s == [b] + t {
      assert ([a] + s)[0] == ([b] + t)[0] && ([a] + s)[1..] == s && ([b] + t)[1..] == t;
    }
  }

  lemma ReplaceHit(line: string, rest: seq<string>, key: string, v: nat)
    requires LineKey(line) == Some(key)
    ensures Replace([line] + rest, key, v) == [NewLine(line, key, v)] + rest
  {
    assert ([line] + rest)[1..] == rest;
  }

  lemma ReplaceMiss(line: string, rest: seq<string>, key: string, v: nat)
    requires LineKey(line) != Some(key)
    ensures Replace([line] + rest, key, v) == [line] + Replace(rest, key, v)
  {
    assert ([line] + rest)[1..] == rest;
  }

  lemma ReplaceAppended(key: string, u: nat, v: nat)
    requires Writable(key)
    ensures Replace(StripAll([EqualsLine(key, u)]), key, v) == [EqualsLine(key, v)]
  {
    EqualsLineReads(key, u);
    EqualsLineShape(key, u);
    var l := EqualsLine(key, u);
    assert StripAll([l]) == [l] + [];
    hide LineKey, EqualsLine;
    ReplaceHit(l, [], key, v);
  }

  lemma ReplaceHitTwice(line: string, rest: seq<string>, key: string, u: nat, v: nat)
    requires Writable(key) && LineKey(line) == Some(key)
    ensures Replace(StripAll(Replace([line] + rest, key, u)), key, v) == [NewLine(line, key, v)] + StripAll(rest)
  {
    NewLineReads(line, key, u);
    hide LineKey, NewLine;
    var l := NewLine(line, key, u);
    ReplaceHit(line, rest, key, u);
    StripHead(l, rest);
    ReplaceHit(l, StripAll(rest), key, v);
  }

  lemma ReplaceMissTwice(line: string, rest: seq<string>, key: string, u: nat, v: nat)
    requires LineKey(line) != Some(key)
    ensures Replace(StripAll(Replace([line] + rest, key, u)), key, v)
         == [StripCr(line)] + Replace(StripAll(Replace(rest, key, u)), key, v)
  {
    StripKeepsReading(line);
    hide LineKey, NewLine;
    ReplaceMiss(line, rest, key, u);
    StripHead(line, Replace(rest, key, u));
    ReplaceMiss(StripCr(line), StripAll(Replace(rest, key, u)), key, v);
  }

  /** Writing over a written text rewrites the same line, and strips the copied
      ones once more. */
  lemma {:induction false} ReplaceTwice(lines: seq<string>, key: string, u: nat, v: nat)
    requires Writable(key)
    ensures Replace(StripAll(Replace(lines, key, u)), key, v) == Replace(lines, key, v)
       <==> NoTrailingCr(Untouched(lines, key))
  {
    hide LineKey, NewLine, EqualsLine, StripCr, EndsWithCr, Writable;
    if lines == [] {
      ReplaceAppended(key, u, v);
    } else {
      var line, rest := lines[0], lines[1..];
      assert lines == [line] + rest;
      var rewritten := NewLine(line, key, v);
      if LineKey(line) == Some(key) {
        ReplaceHitTwice(line, rest, key, u, v);
        ReplaceHit(line, rest, key, v);
        StripSame(rest);
        SameTails(rewritten, rewritten, StripAll(rest), rest);
      } else {
        ReplaceTwice(rest, key, u, v);
        ReplaceMissTwice(line, rest, key, u, v);
        ReplaceMiss(line, rest, key, v);
        SameTails(StripCr(line), line, Replace(StripAll(Replace(rest, key, u)), key, v), Replace(rest, key, v));
        StripOne(line);
        UntouchedHead(lines, key);
      }
    }
  }

  lemma StripOne(line: string)
    ensures StripCr(line) == line <==> !EndsWithCr(line)
  {
  }

  lemma UntouchedHead(lines: seq<string>, key: string)
    requires lines != [] && LineKey(lines[0]) != Some(key)
    ensures NoTrailingCr(Untouched(lines, key))
       <==> !EndsWithCr(lines[0]) && NoTrailingCr(Untouched(lines[1..], key))
  {
    var all, rest := Untouched(lines, key), Untouched(lines[1..], key);
    assert all == [lines[0]] + rest;
    assert forall i :: 0 <= i < |rest| ==> rest[i] == all[i + 1];
  }

  lemma StripSame(lines: seq<string>)
    ensures StripAll(lines) == lines <==> NoTrailingCr(lines)
  {
    if NoTrailingCr(lines) {
      assert StripAll(lines) == lines;
    } else {
      var i :| 0 <= i < |lines| && EndsWithCr(lines[i]);
      assert StripAll(lines)[i] != lines[i];
    }
  }

  /** A second write overwrites the first, byte for byte, exactly when no line it
      copies ends in a carriage return.  With `u == v` this is: rewriting the same
      value changes nothing. */
  lemma OverwriteIff(text: string, key: string, u: nat, v: nat)
    requires Writable(key)
    ensures WriteText(WriteText(text, key, u), key, v) == WriteText(text, key, v)
       <==> NoTrailingCr(Untouched(Lines(text), key))
  {
    var lines := Lines(text);
    var first := Replace(lines, key, u);
    LinesAreOneLine(text);
    ReplaceIsOneLine(lines, key, u);
    LinesOfUnlines(first);
    LinesAreOneLine(WriteText(text, key, u));
    ReplaceIsOneLine(StripAll(first), key, v);
    ReplaceIsOneLine(lines, key, v);
    ReplaceTwice(lines, key, u, v);
    if WriteText(WriteText(text, key, u), key, v) == WriteText(text, key, v) {
      UnlinesInjective(Replace(StripAll(first), key, v), Replace(lines, key, v));
    }
  }

  /** Whatever the line endings, a second write reads everywhere like that write
      alone. */
  lemma OverwriteReads(text: string, key: string, u: nat, v: nat, other: string)
    requires Writable(key)
    ensures ReadText(WriteText(WriteText(text, key, u), key, v), other) == ReadText(WriteText(text, key, v), other)
  {
    if other == key {
      ReadBackIff(WriteText(text, key, u), key, v);
      ReadBackIff(text, key, v);
    } else {
      OtherKeysUntouched(WriteText(text, key, u), key, v, other);
      OtherKeysUntouched(text, key, u, other);
      OtherKeysUntouched(text, key, v, other);
    }
  }

  // ---- the file ----------------------------------------------------------

  datatype ReadError = KeyMissing(key: string) | NotAnInteger(raw: string)

  function ReadValue(text: string, key: string): (r: Result<u64, ReadError>) {
    match ReadText(text, key)
    case None => Err(KeyMissing(key))
    case Some(raw) => if ParseU64(raw).None? then Err(NotAnInteger(raw)) else Ok(ParseU64(raw).value)
  }

  /** The file-backed environment over the file's present text. */
  class ConfigFile {
    var text: string

    constructor (initial: string)
      ensures text == initial
    {
      text := initial;
    }

    method ReadConfigValue(key: string) returns (r: Result<u64, ReadError>)
      ensures r == ReadValue(text, key)
    {
      var raw := ParseConfigValue(text, key);
      if raw.None? {
        return Err(KeyMissing(key));
      }
      var v := ParseU64(raw.value);
      return if v.None? then Err(NotAnInteger(raw.value)) else Ok(v.value);
    }

    /** After a write the key reads as the value exactly when it is writable, and
        for a writable key every other one reads as before. */
    method WriteConfigValue(key: string, value: u64)
      modifies this
      ensures text == WriteText(old(text), key, value)
      ensures ReadValue(text, key) == Ok(value) <==> Writable(key)
      ensures Writable(key) ==> forall other :: other != key ==> ReadValue(text, other) == ReadValue(old(text), other)
    {
      var next := RenderConfigValue(text, key, value);
      ReadBackIff(text, key, value);
      ParseDecimal(value);
      if Writable(key) {
        forall other | other != key ensures ReadText(next, other) == ReadText(text, other) {
          OtherKeysUntouched(text, key, value, other);
        }
      } else {
        UnwritableUnread(next, key);
      }
      text := next;
    }
  }

  lemma UnwritableUnread(text: string, key: string)
    requires !Writable(key)
    ensures ReadText(text, key) == None
  {
    LinesAreOneLine(text);
    UnwritableIsAbsent(Lines(text), key);
  }
}
