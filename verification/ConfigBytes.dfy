/** What a write does to the bytes it was not asked to change: line endings. */
module ConfigBytes {
  import opened Machine
  import opened ConfigText
  import opened ConfigCodec
  import opened ConfigAnyKey

  /** The text cut after each newline: its lines with their endings. */
  function Raw(text: string): (raw: seq<string>) {
    if text == [] then []
    else
      var i := Find(text, IsNewline);
      if i == |text| then [text] else [text[..i + 1]] + Raw(text[i + 1..])
  }

  function Concat(pieces: seq<string>): (text: string) {
    if pieces == [] then "" else pieces[0] + Concat(pieces[1..])
  }

  /** The line without its ending, as it is read. */
  function Bare(raw: string): (line: string) {
    if raw != [] && IsNewline(raw[|raw| - 1]) then StripCr(raw[..|raw| - 1]) else raw
  }

  /** Ends in a newline with no carriage return before it. */
  predicate Clean(raw: string) {
    raw != [] && IsNewline(raw[|raw| - 1]) && !EndsWithCr(raw[..|raw| - 1])
  }

  lemma {:induction false} RawIsText(text: string)
    ensures Concat(Raw(text)) == text
    ensures |Raw(text)| == |Lines(text)| && forall i :: 0 <= i < |Raw(text)| ==> Lines(text)[i] == Bare(Raw(text)[i])
    decreases |text|
  {
    if text != [] {
      var i := Find(text, IsNewline);
      if i == |text| {
        assert Concat([text]) == text + Concat([]);
      } else {
        var rest := text[i + 1..];
        RawIsText(rest);
        assert text == text[..i + 1] + rest;
        assert text[..i + 1][..i] == text[..i];
        assert Bare(text[..i + 1]) == StripCr(text[..i]);
        assert Raw(text)[1..] == Raw(rest);
        forall k | 0 < k < |Raw(text)| ensures Lines(text)[k] == Bare(Raw(text)[k]) {
          assert Raw(text)[k] == Raw(rest)[k - 1] && Lines(text)[k] == Lines(rest)[k - 1];
        }
      }
    }
  }

  /** Every line with a newline after it. */
  function Terminated(lines: seq<string>): (raw: seq<string>)
    ensures |raw| == |lines| && forall i :: 0 <= i < |raw| ==> raw[i] == lines[i] + "\n"
  {
    seq(|lines|, i requires 0 <= i < |lines| => lines[i] + "\n")
  }

  lemma {:induction false} TerminatedIsText(lines: seq<string>)
    ensures Concat(Terminated(lines)) == Unlines(lines)
  {
    if lines != [] {
      TerminatedIsText(lines[1..]);
      assert Terminated(lines)[1..] == Terminated(lines[1..]);
    }
  }

  lemma CleanIff(raw: string)
    ensures Bare(raw) + "\n" == raw <==> Clean(raw)
  {
    var n := |raw|;
    if raw != [] && IsNewline(raw[n - 1]) {
      assert raw == raw[..n - 1] + "\n";
      assert |Bare(raw) + "\n"| == n <==> !EndsWithCr(raw[..n - 1]);
    } else {
      assert |Bare(raw) + "\n"| == n + 1;
    }
  }

  /** For any key: the text and the text written, cut into lines with their endings,
      agree on every line but the rewritten one exactly where the line is clean; the
      others lose a carriage return or gain a newline. */
  lemma KeepsCleanLines(text: string, key: string, v: nat)
    ensures var p, raw, out := FirstHit(Lines(text), key), Raw(text), Terminated(Replace(Lines(text), key, v));
            && Concat(raw) == text && Concat(out) == WriteText(text, key, v)
            && |raw| == |Lines(text)| && |out| == Max(|raw|, p + 1)
            && forall i :: 0 <= i < |raw| && i != p ==> (out[i] == raw[i] <==> Clean(raw[i]))
  {
    hide Lines, Raw, Concat, Replace, FirstHit, Bare, Clean, NewLine, EqualsLine;
    var lines := Lines(text);
    RawIsText(text);
    TerminatedIsText(Replace(lines, key, v));
    RewritesOneLine(lines, key, v);
    forall i | 0 <= i < |lines| && i != FirstHit(lines, key)
      ensures Terminated(Replace(lines, key, v))[i] == Raw(text)[i] <==> Clean(Raw(text)[i])
    {
      CleanIff(Raw(text)[i]);
    }
  }

  // ---- texts that are lines and nothing else ------------------------------

  predicate HasCrLf(text: string) {
    exists i :: 0 <= i < |text| - 1 && text[i] == '\r' && IsNewline(text[i + 1])
  }

  predicate EndsLine(text: string) {
    text == [] || IsNewline(text[|text| - 1])
  }

  lemma CrLfInHead(head: string, rest: string)
    requires OneLine(head)
    ensures HasCrLf(head + "\n" + rest) <==> EndsWithCr(head) || HasCrLf(rest)
  {
    var text := head + "\n" + rest;
    var n := |head|;
    assert text[n] == '\n';
    forall i | 0 <= i < n ensures text[i] == head[i] && !IsNewline(text[i]) {
    }
    if EndsWithCr(head) {
      assert text[n - 1] == '\r' && IsNewline(text[n - 1 + 1]);
    }
    if i :| 0 <= i < |rest| - 1 && rest[i] == '\r' && IsNewline(rest[i + 1]) {
      assert text[n + 1 + i] == '\r' && IsNewline(text[n + 1 + i + 1]);
    }
    if i :| 0 <= i < |text| - 1 && text[i] == '\r' && IsNewline(text[i + 1]) {
      if i > n {
        assert rest[i - n - 1] == text[i] && rest[i - n] == text[i + 1];
        assert IsNewline(rest[i - n - 1 + 1]);
      }
    }
  }

  lemma SameHead(head: string, other: string, rest: string)
    requires OneLine(head)
    ensures StripCr(head) + "\n" + other == head + "\n" + rest <==> !EndsWithCr(head) && other == rest
  {
    var x, y, n := StripCr(head) + "\n" + other, head + "\n" + rest, |head|;
    if EndsWithCr(head) {
      assert x[n - 1] == '\n' && y[n - 1] == '\r';
    } else {
      assert x[n + 1..] == other && y[n + 1..] == rest;
    }
  }

  /** Reading a text as lines and writing them back gives the text exactly when it has
      no carriage return before a newline and ends in a newline, if it has anything. */
  lemma {:induction false} LinesLosslessIff(text: string)
    ensures Unlines(Lines(text)) == text <==> !HasCrLf(text) && EndsLine(text)
    decreases |text|
  {
    if text != [] {
      var i := Find(text, IsNewline);
      if i == |text| {
        assert Unlines([text]) == text + "\n" + Unlines([]);
        assert |Unlines([text])| > |text|;
      } else {
        var head, rest := text[..i], text[i + 1..];
        assert text == head + "\n" + rest;
        LinesLosslessIff(rest);
        CrLfInHead(head, rest);
        SameHead(head, Unlines(Lines(rest)), rest);
        WrittenHead(head, rest, text);
      }
    }
  }

  lemma WrittenHead(head: string, rest: string, text: string)
    requires OneLine(head) && text == head + "\n" + rest
    ensures Unlines(Lines(text)) == StripCr(head) + "\n" + Unlines(Lines(rest))
    ensures EndsLine(text) <==> EndsLine(rest)
  {
    HeadLine(head, rest);
    assert ([StripCr(head)] + Lines(rest))[1..] == Lines(rest);
  }

  /** Writing one key changes the line ending of another line. */
  lemma CarriageReturnIsDropped()
    ensures WriteText("b\r\n", "a", 1) == "b\n" + EqualsLine("a", 1) + "\n"
  {
    hide EqualsLine;
    assert "b\r\n" == "b\r" + "\n" + "" && "b\r"[..1] == "b";
    HeadLine("b\r", "");
    NoKeyAlone();
    assert ["b"][1..] == [];
    assert Replace(["b"], "a", 1) == ["b"] + [EqualsLine("a", 1)];
    UnlinesConcat(["b"], [EqualsLine("a", 1)]);
    assert Unlines(["b"]) == "b\n" && [EqualsLine("a", 1)][1..] == [];
  }

  lemma NoKeyAlone()
    ensures LineKey("b").None?
  {
    TrimmedStays("b");
  }
}
