/** The codec on every key, writable or not.  An unwritable key is never found, so a
    write appends; what the appended text then sets is another key's business. */
module ConfigAnyKey {
  import opened Machine
  import opened ConfigText
  import opened ConfigCodec

  // ---- which line a write rewrites ---------------------------------------

  /** The first line that sets `key`, or the end. */
  function FirstHit(lines: seq<string>, key: string): (p: nat)
    ensures p <= |lines| && (p < |lines| ==> LineKey(lines[p]) == Some(key))
    ensures forall i :: 0 <= i < p ==> LineKey(lines[i]) != Some(key)
  {
    if lines == [] || LineKey(lines[0]) == Some(key) then 0 else 1 + FirstHit(lines[1..], key)
  }

  /** For any key: a write copies every line but the first that sets the key, in
      order, and puts one line in its place or at the end. */
  lemma {:induction false} RewritesOneLine(lines: seq<string>, key: string, v: nat)
    ensures var p, r := FirstHit(lines, key), Replace(lines, key, v);
            && |r| == Max(|lines|, p + 1)
            && (forall i :: 0 <= i < |lines| && i != p ==> r[i] == lines[i])
            && r[p] == if p < |lines| then NewLine(lines[p], key, v) else EqualsLine(key, v)
  {
    hide LineKey, NewLine, EqualsLine, FirstHit, Replace;
    HitFrom(lines, key);
    ReplaceFrom(lines, key, v);
    if lines != [] && LineKey(lines[0]) != Some(key) {
      var rest, r := lines[1..], Replace(lines[1..], key, v);
      RewritesOneLine(rest, key, v);
      forall i | 0 <= i < |lines| && i != FirstHit(lines, key) ensures Replace(lines, key, v)[i] == lines[i] {
        if i > 0 {
          assert lines[i] == rest[i - 1] && r[i - 1] == rest[i - 1];
        }
      }
    }
  }

  lemma ReplaceFrom(lines: seq<string>, key: string, v: nat)
    ensures Replace(lines, key, v)
         == if lines == [] then [EqualsLine(key, v)]
            else if LineKey(lines[0]) == Some(key) then [NewLine(lines[0], key, v)] + lines[1..]
            else [lines[0]] + Replace(lines[1..], key, v)
  {
  }

  lemma HitFrom(lines: seq<string>, key: string)
    ensures FirstHit(lines, key)
         == if lines == [] || LineKey(lines[0]) == Some(key) then 0 else 1 + FirstHit(lines[1..], key)
  {
  }

  lemma {:induction false} UnwritableAppends(lines: seq<string>, key: string, v: nat)
    requires AllOneLine(lines) && !Writable(key)
    ensures Replace(lines, key, v) == lines + [EqualsLine(key, v)]
  {
    hide LineKey, EqualsLine, Writable, OneLine;
    if lines != [] {
      if LineKey(lines[0]).Some? {
        LineKeysAreWritable(lines[0]);
      }
      UnwritableAppends(lines[1..], key, v);
      assert lines == [lines[0]] + lines[1..];
    }
  }

  // ---- what is read afterwards -------------------------------------------

  lemma {:induction false} UnlinesConcat(a: seq<string>, b: seq<string>)
    ensures Unlines(a + b) == Unlines(a) + Unlines(b)
  {
    if a == [] {
      assert a + b == b;
    } else {
      UnlinesConcat(a[1..], b);
      assert (a + b)[1..] == a[1..] + b;
    }
  }

  lemma HeadLine(l: string, more: string)
    requires OneLine(l)
    ensures Lines(l + "\n" + more) == [StripCr(l)] + Lines(more)
  {
    var text := l + "\n" + more;
    FindIs(text, IsNewline, |l|);
    assert text[..|l|] == l && text[|l| + 1..] == more;
  }

  lemma {:induction false} LinesOfConcat(lines: seq<string>, rest: string)
    requires AllOneLine(lines)
    ensures Lines(Unlines(lines) + rest) == StripAll(lines) + Lines(rest)
  {
    hide Lines, OneLine, StripCr;
    if lines == [] {
      assert Unlines(lines) + rest == rest;
      assert StripAll(lines) + Lines(rest) == Lines(rest);
    } else {
      var more := Unlines(lines[1..]) + rest;
      assert Unlines(lines) + rest == lines[0] + "\n" + more;
      HeadLine(lines[0], more);
      LinesOfConcat(lines[1..], rest);
      assert StripAll(lines) == [StripCr(lines[0])] + StripAll(lines[1..]);
    }
  }

  lemma {:induction false} FirstValueConcat(a: seq<string>, b: seq<string>, key: string)
    ensures FirstValue(a + b, key) == if FirstValue(a, key).Some? then FirstValue(a, key) else FirstValue(b, key)
  {
    if a == [] {
      assert a + b == b;
    } else {
      FirstValueConcat(a[1..], b, key);
      assert (a + b)[1..] == a[1..] + b;
    }
  }

  /** The text a write of an unwritable key appends. */
  function Appended(key: string, v: nat): (text: string) {
    EqualsLine(key, v) + "\n"
  }

  lemma UnwritableText(text: string, key: string, v: nat)
    requires !Writable(key)
    ensures WriteText(text, key, v) == Unlines(Lines(text)) + Appended(key, v)
  {
    hide Writable, Lines, EqualsLine, LineKey;
    LinesAreOneLine(text);
    UnwritableAppends(Lines(text), key, v);
    UnlinesConcat(Lines(text), [EqualsLine(key, v)]);
    assert Unlines([EqualsLine(key, v)]) == Appended(key, v) by {
      assert [EqualsLine(key, v)][1..] == [];
      NoLines();
    }
  }

  /** After writing an unwritable key, a key reads as before if it read at all, and
      else as the appended text alone says. */
  lemma UnwritableReads(text: string, key: string, v: nat, other: string)
    requires !Writable(key)
    ensures ReadText(WriteText(text, key, v), other)
         == if ReadText(text, other).Some? then ReadText(text, other) else ReadText(Appended(key, v), other)
  {
    hide Writable, Lines, Appended, FirstValue;
    var lines := Lines(text);
    LinesAreOneLine(text);
    UnwritableText(text, key, v);
    LinesOfConcat(lines, Appended(key, v));
    FirstValueConcat(StripAll(lines), Lines(Appended(key, v)), other);
    StripKeepsValues(lines, other);
  }

  /** Exactly when writing any key leaves another as it was. */
  lemma OtherKeyUntouchedIff(text: string, key: string, v: nat, other: string)
    requires other != key
    ensures ReadText(WriteText(text, key, v), other) == ReadText(text, other)
       <==> Writable(key) || ReadText(text, other).Some? || ReadText(Appended(key, v), other).None?
  {
    hide Writable, ReadText, WriteText, Appended;
    if Writable(key) {
      OtherKeysUntouched(text, key, v, other);
    } else {
      UnwritableReads(text, key, v, other);
    }
  }

  // ---- what an appended line sets ----------------------------------------

  lemma {:induction false} TrimStartConcat(a: string, b: string)
    ensures TrimStart(a + b) == if TrimStart(a) == [] then TrimStart(b) else TrimStart(a) + b
  {
    if a == [] {
      assert a + b == b;
    } else if IsSpace(a[0]) {
      TrimStartConcat(a[1..], b);
      assert (a + b)[1..] == a[1..] + b;
    }
  }

  /** The key that a line appended for `key` sets: none if it reads as a comment,
      else what stands before the first `=`. */
  function SetsAlone(key: string): (k: Option<string>) {
    var h := TrimStart(key);
    if h != [] && StartsComment(h[0]) then None else Some(Trim(h[..Find(h, IsEquals)]))
  }

  lemma TrimmedAppended(key: string, v: nat)
    ensures Trim(EqualsLine(key, v))
         == if TrimStart(key) == [] then "= " + Decimal(v) else TrimStart(key) + " = " + Decimal(v)
  {
    hide Decimal;
    var tail := " = " + Decimal(v);
    DecimalIsPlain(v);
    assert EqualsLine(key, v) == key + tail;
    TrimStartConcat(key, tail);
    assert tail[1..] == "= " + Decimal(v);
    assert TrimStart(tail) == "= " + Decimal(v);
    var t := TrimStart(EqualsLine(key, v));
    assert !IsSpace(t[|t| - 1]);
    assert TrimStart(key) + tail == TrimStart(key) + " = " + Decimal(v);
  }

  lemma SplitAppended(h: string, v: nat)
    ensures Split(h + " = " + Decimal(v)).Some?
    ensures Trim(Split(h + " = " + Decimal(v)).value.0) == Trim(h[..Find(h, IsEquals)])
  {
    hide Decimal, Trim;
    var e, t := Find(h, IsEquals), h + " = " + Decimal(v);
    if e < |h| {
      FindIs(t, IsEquals, e);
      assert t[..e] == h[..e];
    } else {
      FindIs(t, IsEquals, |h| + 1);
      assert t[..|h| + 1] == h + " " && h[..e] == h;
      TrimDropsSpace(h);
    }
  }

  lemma AppendedLineKey(key: string, v: nat)
    ensures LineKey(EqualsLine(key, v)) == SetsAlone(key)
  {
    var h := TrimStart(key);
    TrimmedAppended(key, v);
    if h == [] {
      EmptyKeySplits(v);
      TrimmedStays("");
      assert h[..Find(h, IsEquals)] == "";
    } else {
      SplitAppended(h, v);
    }
    hide Decimal, TrimStart, Trim, Split, Find, EqualsLine;
  }

  /** The part of a key after its last newline. */
  function LastLine(key: string): (l: string)
    ensures OneLine(l)
  {
    var i := Find(key, IsNewline);
    if i == |key| then key else LastLine(key[i + 1..])
  }

  /** The lines of a key before it, as they read back. */
  function KeyLines(key: string): (lines: seq<string>) {
    var i := Find(key, IsNewline);
    if i == |key| then [] else [StripCr(key[..i])] + KeyLines(key[i + 1..])
  }

  lemma KeyOnOneLine(key: string)
    requires OneLine(key)
    ensures LastLine(key) == key && KeyLines(key) == []
  {
    FindIs(key, IsNewline, |key|);
  }

  lemma AppendedIsOneLine(key: string, v: nat)
    requires OneLine(key)
    ensures OneLine(EqualsLine(key, v)) && Lines(Appended(key, v)) == [EqualsLine(key, v)]
  {
    hide Decimal, IsSpace;
    DecimalIsPlain(v);
    var l := EqualsLine(key, v);
    assert !EndsWithCr(l);
    assert [l][1..] == [];
    NoLines();
    assert Unlines([l]) == Appended(key, v);
    LinesOfUnlines([l]);
    assert StripAll([l]) == [l];
  }

  /** What is appended for any key, line by line. */
  lemma {:induction false} AppendedAre(key: string, v: nat)
    ensures Lines(Appended(key, v)) == KeyLines(key) + [EqualsLine(LastLine(key), v)]
  {
    hide Lines, Decimal;
    var i := Find(key, IsNewline);
    if i == |key| {
      AppendedIsOneLine(key, v);
    } else {
      var l, more := key[..i], key[i + 1..];
      assert key == l + "\n" + more;
      assert Appended(key, v) == l + "\n" + Appended(more, v);
      HeadLine(l, Appended(more, v));
      AppendedAre(more, v);
    }
  }

  lemma {:induction false} KeyLinesAreOneLine(key: string)
    ensures AllOneLine(KeyLines(key))
  {
    var i := Find(key, IsNewline);
    if i < |key| {
      KeyLinesAreOneLine(key[i + 1..]);
    }
  }

  lemma {:induction false} FirstValueSome(lines: seq<string>, key: string)
    ensures FirstValue(lines, key).Some? <==> exists i :: 0 <= i < |lines| && LineKey(lines[i]) == Some(key)
  {
    hide LineKey, LineValue;
    if lines != [] {
      var rest := lines[1..];
      FirstValueSome(rest, key);
      if i :| 0 <= i < |lines| && LineKey(lines[i]) == Some(key) {
        assert i > 0 ==> rest[i - 1] == lines[i];
      }
      if i :| 0 <= i < |rest| && LineKey(rest[i]) == Some(key) {
        assert lines[i + 1] == rest[i];
      }
    }
  }

  /** The key, appended, sets `other`: on a line of its own, or with the value. */
  ghost predicate Sets(key: string, other: string) {
    || (exists i :: 0 <= i < |KeyLines(key)| && LineKey(KeyLines(key)[i]) == Some(other))
    || SetsAlone(LastLine(key)) == Some(other)
  }

  /** For any key, the appended text sets exactly those keys, none of them unwritable. */
  lemma AppendedSets(key: string, v: nat, other: string)
    ensures ReadText(Appended(key, v), other).Some? <==> Sets(key, other)
    ensures Sets(key, other) ==> Writable(other)
  {
    hide EqualsLine, Appended, SetsAlone, LineKey, Lines, Writable, KeyLines, LastLine;
    var last := EqualsLine(LastLine(key), v);
    AppendedAre(key, v);
    AppendedLineKey(LastLine(key), v);
    AppendedIsOneLine(LastLine(key), v);
    FirstValueConcat(KeyLines(key), [last], other);
    FirstValueSome(KeyLines(key), other);
    FirstValueSome([last], other);
    KeyLinesAreOneLine(key);
    assert [last][0] == last;
    if LineKey(last).Some? {
      LineKeysAreWritable(last);
    }
    forall i | 0 <= i < |KeyLines(key)| && LineKey(KeyLines(key)[i]).Some?
        ensures Writable(LineKey(KeyLines(key)[i]).value) {
      LineKeysAreWritable(KeyLines(key)[i]);
    }
  }

  /** Writing a key is harmless to all others, in every text, exactly when it is
      writable or what it appends sets nothing. */
  lemma HarmlessIff(key: string, v: nat)
    ensures (forall text, other :: other != key ==> ReadText(WriteText(text, key, v), other) == ReadText(text, other))
       <==> Writable(key) || forall other :: !Sets(key, other)
  {
    hide Writable, ReadText, WriteText, Appended, Sets;
    if Writable(key) || forall other :: !Sets(key, other) {
      forall text, other | other != key ensures ReadText(WriteText(text, key, v), other) == ReadText(text, other) {
        OtherKeyUntouchedIff(text, key, v, other);
        AppendedSets(key, v, other);
      }
    } else {
      var other :| Sets(key, other);
      AppendedSets(key, v, other);
      OtherKeyUntouchedIff("", key, v, other);
      EmptyReads(other);
    }
  }

  lemma EmptyReads(key: string)
    ensures ReadText("", key) == None
  {
  }

  /** A key with a space at its end: after writing it, it reads as nothing, and the
      key without the space, which nobody wrote, reads. */
  lemma TrailingSpaceIsAnotherKey(v: nat)
    ensures ReadText(WriteText("", "a ", v), "a ") == None
    ensures ReadText(WriteText("", "a ", v), "a").Some?
  {
    ReadBackIff("", "a ", v);
    UnwritableUnread(WriteText("", "a ", v), "a ");
    assert "a "[..1] == "a" && TrimEnd("a ") == TrimEnd("a");
    assert SetsAlone("a ") == Some("a") by {
      assert Find("a ", IsEquals) == 2;
      assert "a "[..2] == "a ";
    }
    KeyOnOneLine("a ");
    hide ReadText, WriteText, Appended, SetsAlone, LastLine, KeyLines;
    UnwritableReads("", "a ", v, "a");
    EmptyReads("a");
    AppendedSets("a ", v, "a");
  }

  // ---- writing twice ------------------------------------------------------

  /** For any key, a second write reads everywhere like that write alone exactly when
      the first left nothing readable that the second would not. */
  lemma OverwriteReadsIff(text: string, key: string, u: nat, v: nat, other: string)
    ensures ReadText(WriteText(WriteText(text, key, u), key, v), other) == ReadText(WriteText(text, key, v), other)
       <==> Writable(key) || ReadText(text, other).Some? || ReadText(Appended(key, u), other).None?
            || ReadText(Appended(key, u), other) == ReadText(Appended(key, v), other)
  {
    hide Writable, ReadText, WriteText, Appended;
    if Writable(key) {
      OverwriteReads(text, key, u, v, other);
    } else {
      UnwritableReads(text, key, u, other);
      UnwritableReads(text, key, v, other);
      UnwritableReads(WriteText(text, key, u), key, v, other);
    }
  }

  function Newlines(s: string): (n: nat) {
    if s == [] then 0 else (if IsNewline(s[0]) then 1 else 0) + Newlines(s[1..])
  }

  lemma {:induction false} NewlinesConcat(a: string, b: string)
    ensures Newlines(a + b) == Newlines(a) + Newlines(b)
  {
    if a == [] {
      assert a + b == b;
    } else {
      NewlinesConcat(a[1..], b);
      assert (a + b)[1..] == a[1..] + b;
    }
  }

  lemma {:induction false} OneLineHasNone(s: string)
    requires OneLine(s)
    ensures Newlines(s) == 0
  {
    if s != [] {
      OneLineHasNone(s[1..]);
    }
  }

  lemma {:induction false} UnlinesNewlines(lines: seq<string>)
    requires AllOneLine(lines)
    ensures Newlines(Unlines(lines)) == |lines|
  {
    if lines != [] {
      UnlinesNewlines(lines[1..]);
      OneLineHasNone(lines[0]);
      NewlinesConcat(lines[0], "\n");
      NewlinesConcat(lines[0] + "\n", Unlines(lines[1..]));
      assert Newlines("\n") == 1;
    }
  }

  /** Every write of an unwritable key makes the text longer. */
  lemma UnwritableGrows(text: string, key: string, u: nat, v: nat)
    requires !Writable(key)
    ensures Newlines(WriteText(WriteText(text, key, u), key, v)) > Newlines(WriteText(text, key, v))
  {
    hide Writable, WriteText, Appended, Newlines;
    var lines, once := Lines(text), WriteText(text, key, u);
    LinesAreOneLine(text);
    LinesAreOneLine(once);
    UnwritableText(text, key, u);
    UnwritableText(text, key, v);
    UnwritableText(once, key, v);
    LinesOfConcat(lines, Appended(key, u));
    AppendedLines(key, u);
    UnlinesNewlines(lines);
    UnlinesNewlines(Lines(once));
    NewlinesConcat(Unlines(lines), Appended(key, v));
    NewlinesConcat(Unlines(Lines(once)), Appended(key, v));
  }

  lemma AppendedLines(key: string, v: nat)
    ensures |Lines(Appended(key, v))| > 0
  {
  }

  /** For any key, writing twice gives the text of the last write alone exactly when
      the key is writable and no other line still ends in a carriage return. */
  lemma OverwriteAnyKeyIff(text: string, key: string, u: nat, v: nat)
    ensures WriteText(WriteText(text, key, u), key, v) == WriteText(text, key, v)
       <==> Writable(key) && NoTrailingCr(Untouched(Lines(text), key))
  {
    hide Writable, WriteText, Newlines, NoTrailingCr;
    if Writable(key) {
      OverwriteIff(text, key, u, v);
    } else {
      UnwritableGrows(text, key, u, v);
    }
  }
}
