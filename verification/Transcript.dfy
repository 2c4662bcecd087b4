// The line-timestamped transcript: what the tee writes, and when stripping the timestamps gives the output back.
module Transcript {

  /** The characters at which text is split into lines. */
  predicate IsBreak(c: char) {
    c in {'\n', '\r', '\U{000B}', '\U{000C}', '\U{001C}', '\U{001D}', '\U{001E}', '\U{0085}', '\U{2028}', '\U{2029}'}
  }

  predicate IsSpace(c: char) {
    || '\U{0009}' <= c <= '\U{000D}' || '\U{001C}' <= c <= '\U{0020}' || '\U{2000}' <= c <= '\U{200A}'
    || c in {'\U{0085}', '\U{00A0}', '\U{1680}', '\U{2028}', '\U{2029}', '\U{202F}', '\U{205F}', '\U{3000}'}
  }

  /** The length of the first line of `t`, its line break included; a carriage return takes a line feed with it. */
  function PartLength(t: string): (n: nat)
    requires t != ""
    ensures 1 <= n <= |t|
    ensures IsPart(t[..n]) && (t[n - 1] == '\r' && n < |t| ==> t[n] != '\n')
  {
    if IsBreak(t[0]) then
      BreakIsPart(t);
      if t[0] == '\r' && |t| > 1 && t[1] == '\n' then 2 else 1
    else if |t| == 1 then 1
    else
      var n := PartLength(t[1..]);
      assert IsPart(t[..n + 1]) by {
        assert t[..n + 1] == [t[0]] + t[1..][..n];
        PrefixedIsPart([t[0]], t[1..][..n]);
      }
      1 + n
  }

  lemma BreakIsPart(t: string)
    requires t != "" && IsBreak(t[0])
    ensures IsPart(t[..1]) && (t[0] == '\r' && |t| > 1 && t[1] == '\n' ==> IsPart(t[..2]))
  {
    assert NoBreaks(t[..1][..0]);
    if t[0] == '\r' && |t| > 1 && t[1] == '\n' {
      assert NoBreaks(t[..2][..0]);
    }
  }

  predicate NoBreaks(t: string) {
    forall i :: 0 <= i < |t| ==> !IsBreak(t[i])
  }

  /** A non-empty line with at most its own break at the end. */
  predicate IsPart(t: string) {
    t != "" &&
    (NoBreaks(t) || NoBreaks(t[..|t| - 1]) || (|t| > 1 && t[|t| - 2] == '\r' && t[|t| - 1] == '\n' && NoBreaks(t[..|t| - 2])))
  }

  lemma NoBreaksConcat(a: string, b: string)
    ensures NoBreaks(a + b) <==> NoBreaks(a) && NoBreaks(b)
  {
    assert forall i :: 0 <= i < |a| ==> (a + b)[i] == a[i];
    assert forall i :: 0 <= i < |b| ==> (a + b)[|a| + i] == b[i];
  }

  lemma PrefixedIsPart(x: string, p: string)
    requires x != "" && NoBreaks(x) && IsPart(p)
    ensures IsPart(x + p) && (NoBreaks(x + p) <==> NoBreaks(p))
  {
    var w := x + p;
    NoBreaksConcat(x, p);
    assert w[..|w| - 1] == x + p[..|p| - 1];
    NoBreaksConcat(x, p[..|p| - 1]);
    if |p| > 1 {
      assert w[..|w| - 2] == x + p[..|p| - 2];
      NoBreaksConcat(x, p[..|p| - 2]);
    }
  }

  // ---- reading lines ----

  /** A line, and whether it stands behind a line feed, a carriage return, or nothing. */
  datatype Line = Line(text: string, headed: bool)

  datatype Scan = Scan(lines: seq<Line>, current: string, headed: bool, afterReturn: bool)

  const START := Scan([], "", true, false)

  function Next(s: Scan, c: char): Scan {
    if s.afterReturn && c == '\n' then s.(afterReturn := false)
    else if IsBreak(c) then Scan(s.lines + [Line(s.current, s.headed)], "", c in {'\n', '\r'}, c == '\r')
    else s.(current := s.current + [c], afterReturn := false)
  }

  function ScanFrom(s: Scan, t: string): Scan {
    if t == "" then s else Next(ScanFrom(s, t[..|t| - 1]), t[|t| - 1])
  }

  lemma {:induction false} ScanConcat(s: Scan, a: string, b: string)
    ensures ScanFrom(s, a + b) == ScanFrom(ScanFrom(s, a), b)
    decreases |b|
  {
    if b == "" {
      assert a + b == a;
    } else {
      assert (a + b)[..|a + b| - 1] == a + b[..|b| - 1];
      ScanConcat(s, a, b[..|b| - 1]);
    }
  }

  function Lines(t: string): seq<Line> {
    var s := ScanFrom(START, t);
    if s.current == "" then s.lines else s.lines + [Line(s.current, s.headed)]
  }

  function FirstClose(s: string, from: nat): (j: nat)
    requires from <= |s|
    ensures from <= j <= |s| && (j < |s| ==> s[j] == ']') && forall i :: from <= i < j ==> s[i] != ']'
    decreases |s| - from
  {
    if from == |s| || s[from] == ']' then from else FirstClose(s, from + 1)
  }

  /** Drop a leading bracketed tag and one space behind it. */
  function Strip(s: string): string {
    if s == "" || s[0] != '[' then s else
      var j := FirstClose(s, 1);
      if j == |s| || j < 2 then s
      else if j + 1 < |s| && IsSpace(s[j + 1]) then s[j + 2..] else s[j + 1..]
  }

  /** The lines a reader of the log sees once the timestamps are gone. */
  function Recovered(log: string): seq<string> {
    var ls := Lines(log);
    seq(|ls|, i requires 0 <= i < |ls| => Strip(ls[i].text))
  }

  function Texts(ls: seq<Line>): seq<string> {
    seq(|ls|, i requires 0 <= i < |ls| => ls[i].text)
  }

  // ---- writing ----

  type Clock = nat -> string

  /** Timestamps are non-empty and hold neither a closing bracket nor a line break. */
  ghost predicate Proper(clock: Clock) {
    forall k :: clock(k) != "" && NoBreaks(clock(k)) && ']' !in clock(k)
  }

  function Prefix(clock: Clock, k: nat): string {
    "[" + clock(k) + "] "
  }

  datatype Tee = Tee(log: string, lineStart: bool, ticks: nat)

  function WritePart(clock: Clock, t: Tee, part: string): Tee
    requires part != ""
  {
    Tee(t.log + (if t.lineStart then Prefix(clock, t.ticks) + part else part),
        part[|part| - 1] in {'\n', '\r'}, if t.lineStart then t.ticks + 1 else t.ticks)
  }

  function WriteText(clock: Clock, t: Tee, text: string): Tee
    decreases |text|
  {
    if text == "" then t else
      var n := PartLength(text);
      WriteText(clock, WritePart(clock, t, text[..n]), text[n..])
  }

  lemma WriteUnfolds(clock: Clock, t: Tee, text: string)
    requires text != ""
    ensures WriteText(clock, t, text) ==
            WriteText(clock, WritePart(clock, t, text[..PartLength(text)]), text[PartLength(text)..])
  {
  }

  /** Everything written, one write after the other. */
  function WriteAll(clock: Clock, writes: seq<string>): Tee {
    if writes == [] then Tee("", true, 0)
    else WriteText(clock, WriteAll(clock, writes[..|writes| - 1]), writes[|writes| - 1])
  }

  function Concat(writes: seq<string>): string {
    if writes == [] then "" else Concat(writes[..|writes| - 1]) + writes[|writes| - 1]
  }

  /** A write boundary between a carriage return and its line feed. */
  predicate Splits(before: string, text: string) {
    before != "" && before[|before| - 1] == '\r' && text != "" && text[0] == '\n'
  }

  function SplitCount(writes: seq<string>): nat {
    if writes == [] then 0 else
      SplitCount(writes[..|writes| - 1]) +
      if Splits(Concat(writes[..|writes| - 1]), writes[|writes| - 1]) then 1 else 0
  }

  // ---- one part at a time ----

  /** A part without its line break. */
  function Body(p: string): string
    requires IsPart(p)
  {
    if NoBreaks(p) then p
    else if |p| > 1 && p[|p| - 2] == '\r' && p[|p| - 1] == '\n' then p[..|p| - 2]
    else p[..|p| - 1]
  }

  /** The current line, grown by text without a break. */
  function Grown(s: Scan, x: string): Scan {
    s.(current := s.current + x, afterReturn := false)
  }

  /** The current line, grown and closed by a break. */
  function Closed(s: Scan, x: string, c: char): Scan {
    Scan(s.lines + [Line(s.current + x, s.headed)], "", c in {'\n', '\r'}, c == '\r')
  }

  lemma {:induction false} ScanBody(s: Scan, t: string)
    requires NoBreaks(t)
    ensures ScanFrom(s, t) == if t == "" then s else s.(current := s.current + t, afterReturn := false)
    decreases |t|
  {
    if t != "" {
      var n := |t| - 1;
      ScanBody(s, t[..n]);
      assert t == t[..n] + [t[n]];
      assert IsBreak('\n');
    }
  }

  lemma ScanSnoc(s: Scan, b: string, c: char)
    ensures ScanFrom(s, b + [c]) == Next(ScanFrom(s, b), c)
  {
    assert (b + [c])[..|b|] == b;
  }

  lemma BreakEffect(s: Scan, b: string, c: char)
    requires NoBreaks(b) && IsBreak(c) && !(s.afterReturn && b == "" && c == '\n')
    ensures ScanFrom(s, b + [c]) == Closed(s, b, c)
  {
    ScanBody(s, b);
    ScanSnoc(s, b, c);
    assert s.current + "" == s.current;
  }

  lemma BodyOf(p: string) returns (b: string)
    requires IsPart(p) && !NoBreaks(p)
    ensures b == Body(p) && NoBreaks(b) && IsBreak(p[|p| - 1])
    ensures p == b + [p[|p| - 1]] || (p == b + ['\r'] + ['\n'] && p[|p| - 1] == '\n')
  {
    b := Body(p);
    assert p == p[..|p| - 1] + [p[|p| - 1]];
    if b != p[..|p| - 1] {
      assert p[..|p| - 1] == p[..|p| - 2] + ['\r'];
    }
  }

  /** What reading one part does: its body extends the current line, its break closes it. */
  lemma PartEffect(s: Scan, p: string)
    requires IsPart(p) && !(s.afterReturn && p[0] == '\n')
    ensures ScanFrom(s, p) ==
            if NoBreaks(p) then Grown(s, p) else Closed(s, Body(p), p[|p| - 1])
  {
    if NoBreaks(p) {
      ScanBody(s, p);
    } else {
      var b := BodyOf(p);
      if p == b + [p[|p| - 1]] {
        BreakEffect(s, b, p[|p| - 1]);
      } else {
        BreakEffect(s, b, '\r');
        ScanSnoc(s, b + ['\r'], '\n');
      }
    }
  }

  // ---- the log beside the terminal ----

  ghost predicate Logged(clock: Clock, logLine: string, line: Line) {
    if line.headed then exists k: nat :: logLine == Prefix(clock, k) + line.text else logLine == line.text
  }

  /** Where the scan of the log stands beside the scan of the terminal text, `extra` lines ahead. */
  ghost predicate Abreast(t: Scan, g: Scan, lineStart: bool, extra: nat) {
    && lineStart == (t.current == "" && t.headed) && (g.current == "" <==> t.current == "")
    && |g.lines| == |t.lines| + extra
    && t.afterReturn == g.afterReturn && (t.afterReturn ==> lineStart)
  }

  /** Without extra lines, every line of the log is the terminal's, timestamped when it is headed. */
  ghost predicate Matched(clock: Clock, t: Scan, g: Scan) {
    && |g.lines| == |t.lines| && (forall i :: 0 <= i < |t.lines| ==> Logged(clock, g.lines[i].text, t.lines[i]))
    && (t.current != "" ==> Logged(clock, g.current, Line(t.current, t.headed)))
  }

  function Written(clock: Clock, lineStart: bool, ticks: nat, part: string): string {
    if lineStart then Prefix(clock, ticks) + part else part
  }

  lemma PrefixHasNoBreaks(clock: Clock, k: nat)
    requires Proper(clock)
    ensures NoBreaks(Prefix(clock, k)) && Prefix(clock, k)[0] == '['
  {
  }

  lemma PrefixedBody(x: string, p: string)
    requires x != "" && NoBreaks(x) && IsPart(p)
    ensures IsPart(x + p) && Body(x + p) == x + Body(p)
  {
    var w := x + p;
    PrefixedIsPart(x, p);
    assert w[..|w| - 1] == x + p[..|p| - 1];
    if |p| > 1 {
      assert w[..|w| - 2] == x + p[..|p| - 2];
      assert w[|w| - 2] == p[|p| - 2] && w[|w| - 1] == p[|p| - 1];
    } else {
      assert !IsBreak(w[|w| - 2]);
    }
  }

  lemma WrittenIsPart(clock: Clock, lineStart: bool, ticks: nat, part: string)
    requires Proper(clock) && IsPart(part)
    ensures var w := Written(clock, lineStart, ticks, part);
            && IsPart(w) && w[|w| - 1] == part[|part| - 1] && (NoBreaks(w) <==> NoBreaks(part))
            && Body(w) == Written(clock, lineStart, ticks, Body(part)) && (lineStart ==> w[0] == '[')
  {
    if lineStart {
      PrefixHasNoBreaks(clock, ticks);
      PrefixedIsPart(Prefix(clock, ticks), part);
      PrefixedBody(Prefix(clock, ticks), part);
    }
  }

  lemma LoggedExtends(clock: Clock, logLine: string, line: Line, x: string)
    requires Logged(clock, logLine, line)
    ensures Logged(clock, logLine + x, line.(text := line.text + x))
  {
    if line.headed {
      var k: nat :| logLine == Prefix(clock, k) + line.text;
      assert logLine + x == Prefix(clock, k) + (line.text + x);
    }
  }

  /** The current line of the log, extended by a written part, is the terminal's line extended by the part. */
  lemma LineExtends(clock: Clock, t: Scan, g: Scan, lineStart: bool, ticks: nat, x: string)
    requires Abreast(t, g, lineStart, 0) && Matched(clock, t, g)
    ensures Logged(clock, g.current + Written(clock, lineStart, ticks, x), Line(t.current + x, t.headed))
  {
    if t.current != "" {
      LoggedExtends(clock, g.current, Line(t.current, t.headed), x);
    } else {
      assert t.current + x == x;
      assert g.current + Written(clock, lineStart, ticks, x) == Written(clock, lineStart, ticks, x);
    }
  }

  /** A line feed torn from its carriage return ends no line on the terminal, but one in the log. */
  lemma TornStep(clock: Clock, t: Scan, g: Scan, ticks: nat, p: string, extra: nat)
    requires Proper(clock) && IsPart(p) && Abreast(t, g, true, extra) && t.afterReturn && p[0] == '\n'
    ensures p == "\n" && ScanFrom(t, p) == t.(afterReturn := false)
    ensures Abreast(ScanFrom(t, p), ScanFrom(g, Written(clock, true, ticks, p)), true, extra + 1)
  {
    assert IsBreak(p[0]);
    assert p == "\n";
    ScanSnoc(t, "", '\n');
    WrittenIsPart(clock, true, ticks, p);
    PartEffect(g, Written(clock, true, ticks, p));
  }

  lemma GrownStep(clock: Clock, t: Scan, g: Scan, lineStart: bool, ticks: nat, p: string, extra: nat)
    requires p != "" && Abreast(t, g, lineStart, extra)
    ensures var t', g' := Grown(t, p), Grown(g, Written(clock, lineStart, ticks, p));
            && Abreast(t', g', false, extra)
            && (extra == 0 && Matched(clock, t, g) ==> Matched(clock, t', g'))
  {
    if extra == 0 && Matched(clock, t, g) {
      LineExtends(clock, t, g, lineStart, ticks, p);
    }
  }

  lemma ClosedStep(clock: Clock, t: Scan, g: Scan, lineStart: bool, ticks: nat, x: string, c: char, extra: nat)
    requires Abreast(t, g, lineStart, extra)
    ensures var t', g' := Closed(t, x, c), Closed(g, Written(clock, lineStart, ticks, x), c);
            && Abreast(t', g', c in {'\n', '\r'}, extra)
            && (extra == 0 && Matched(clock, t, g) ==> Matched(clock, t', g'))
  {
    if extra == 0 && Matched(clock, t, g) {
      LineExtends(clock, t, g, lineStart, ticks, x);
    }
  }

  lemma WholeStep(clock: Clock, t: Scan, g: Scan, lineStart: bool, ticks: nat, p: string, extra: nat)
    requires Proper(clock) && IsPart(p) && Abreast(t, g, lineStart, extra) && !(t.afterReturn && p[0] == '\n')
    ensures var t', g' := ScanFrom(t, p), ScanFrom(g, Written(clock, lineStart, ticks, p));
            && Abreast(t', g', p[|p| - 1] in {'\n', '\r'}, extra)
            && t'.afterReturn == (p[|p| - 1] == '\r')
            && (extra == 0 && Matched(clock, t, g) ==> Matched(clock, t', g'))
  {
    var w := Written(clock, lineStart, ticks, p);
    WrittenIsPart(clock, lineStart, ticks, p);
    PartEffect(t, p);
    PartEffect(g, w);
    if NoBreaks(p) {
      assert !IsBreak(p[|p| - 1]);
      GrownStep(clock, t, g, lineStart, ticks, p, extra);
    } else {
      ClosedStep(clock, t, g, lineStart, ticks, Body(p), p[|p| - 1], extra);
    }
  }

  /** Writing one part keeps the scans abreast, and matched unless it is a line feed torn from its carriage return. */
  lemma PartStep(clock: Clock, t: Scan, g: Scan, lineStart: bool, ticks: nat, p: string, extra: nat)
    requires Proper(clock) && IsPart(p) && Abreast(t, g, lineStart, extra)
    ensures var torn := t.afterReturn && p[0] == '\n';
            var t', g' := ScanFrom(t, p), ScanFrom(g, Written(clock, lineStart, ticks, p));
            && Abreast(t', g', p[|p| - 1] in {'\n', '\r'}, extra + if torn then 1 else 0)
            && t'.afterReturn == (p[|p| - 1] == '\r')
            && (extra == 0 && !torn && Matched(clock, t, g) ==> Matched(clock, t', g'))
  {
    if t.afterReturn && p[0] == '\n' {
      TornStep(clock, t, g, ticks, p, extra);
    } else {
      WholeStep(clock, t, g, lineStart, ticks, p, extra);
    }
  }

  /** The scans of everything written so far, and how far the log is ahead. */
  ghost predicate InStep(clock: Clock, term: string, tee: Tee, extra: nat) {
    var t, g := ScanFrom(START, term), ScanFrom(START, tee.log);
    && Abreast(t, g, tee.lineStart, extra)
    && t.afterReturn == (term != "" && term[|term| - 1] == '\r')
    && (extra == 0 ==> Matched(clock, t, g))
  }

  lemma PartKeepsStep(clock: Clock, term: string, tee: Tee, p: string, extra: nat)
    requires Proper(clock) && IsPart(p) && InStep(clock, term, tee, extra)
    ensures InStep(clock, term + p, WritePart(clock, tee, p), extra + if Splits(term, p) then 1 else 0)
  {
    ScanConcat(START, term, p);
    ScanConcat(START, tee.log, Written(clock, tee.lineStart, tee.ticks, p));
    PartStep(clock, ScanFrom(START, term), ScanFrom(START, tee.log), tee.lineStart, tee.ticks, p, extra);
  }

  /** Only the first part of a write can be torn from what came before. */
  lemma FirstPartTears(term: string, text: string, p: string, rest: string)
    requires text != "" && p == text[..PartLength(text)] && rest == text[PartLength(text)..]
    ensures (Splits(term, p) <==> Splits(term, text)) && !Splits(term + p, rest) && term + text == term + p + rest
  {
    assert (term + p)[|term + p| - 1] == text[PartLength(text) - 1];
    assert text == p + rest;
  }

  lemma {:induction false} WriteKeepsStep(clock: Clock, term: string, tee: Tee, text: string, extra: nat)
    requires Proper(clock) && InStep(clock, term, tee, extra)
    ensures InStep(clock, term + text, WriteText(clock, tee, text), extra + if Splits(term, text) then 1 else 0)
    decreases |text|
  {
    if text == "" {
      assert term + text == term;
    } else {
      var n := PartLength(text);
      var p, rest := text[..n], text[n..];
      var torn := if Splits(term, text) then 1 else 0;
      FirstPartTears(term, text, p, rest);
      PartKeepsStep(clock, term, tee, p, extra);
      WriteKeepsStep(clock, term + p, WritePart(clock, tee, p), rest, extra + torn);
    }
  }

  lemma {:induction false} WritesKeepStep(clock: Clock, writes: seq<string>)
    requires Proper(clock)
    ensures InStep(clock, Concat(writes), WriteAll(clock, writes), SplitCount(writes))
    decreases |writes|
  {
    if writes != [] {
      var before := writes[..|writes| - 1];
      WritesKeepStep(clock, before);
      WriteKeepsStep(clock, Concat(before), WriteAll(clock, before), writes[|writes| - 1], SplitCount(before));
    }
  }

  lemma StripTakesPrefix(clock: Clock, k: nat, x: string)
    requires Proper(clock)
    ensures Strip(Prefix(clock, k) + x) == x
  {
    var s, c := Prefix(clock, k) + x, clock(k);
    assert s[|c| + 1] == ']' && s[|c| + 2] == ' ';
    assert forall i :: 1 <= i <= |c| ==> s[i] == c[i - 1];
    assert FirstClose(s, 1) == |c| + 1;
    assert s[|c| + 3..] == x;
  }

  lemma LoggedStrips(clock: Clock, logLine: string, line: Line)
    requires Proper(clock) && Logged(clock, logLine, line)
    ensures Strip(logLine) == if line.headed then line.text else Strip(line.text)
  {
    if line.headed {
      var k: nat :| logLine == Prefix(clock, k) + line.text;
      StripTakesPrefix(clock, k, line.text);
    }
  }

  /**
   * Stripping the timestamps from the log gives the lines of the terminal back exactly when no two writes tear a
   * line feed from its carriage return, and no line that follows another kind of line break looks like a timestamp.
   */
  lemma StrippingRecoversExactlyWhen(clock: Clock, writes: seq<string>)
    requires Proper(clock)
    ensures var lines := Lines(Concat(writes));
            Recovered(WriteAll(clock, writes).log) == Texts(lines) <==>
              SplitCount(writes) == 0 && forall i :: 0 <= i < |lines| && !lines[i].headed ==> Strip(lines[i].text) == lines[i].text
  {
    WritesKeepStep(clock, writes);
    var log, lines := WriteAll(clock, writes).log, Lines(Concat(writes));
    assert |Recovered(log)| == |Texts(lines)| + SplitCount(writes);
    if SplitCount(writes) == 0 {
      forall i | 0 <= i < |lines|
        ensures Recovered(log)[i] == if lines[i].headed then lines[i].text else Strip(lines[i].text)
      {
        LoggedStrips(clock, Lines(log)[i].text, lines[i]);
      }
      if Recovered(log) == Texts(lines) {
        forall i | 0 <= i < |lines| && !lines[i].headed ensures Strip(lines[i].text) == lines[i].text {
          assert Recovered(log)[i] == Texts(lines)[i];
        }
      }
    }
  }

  /** A carriage return and its line feed in two writes leave an extra line in the log. */
  lemma TornBreakShows(clock: Clock)
    requires Proper(clock)
    ensures var writes := ["a\r", "\n"]; Recovered(WriteAll(clock, writes).log) != Texts(Lines(Concat(writes)))
  {
    var writes := ["a\r", "\n"];
    assert writes[..1] == ["a\r"] && writes[..1][..0] == [];
    assert Concat(["a\r"]) == "" + "a\r" == "a\r";
    assert SplitCount(writes) == 1;
    StrippingRecoversExactlyWhen(clock, writes);
  }

  class TimestampedTee {
    const clock: Clock
    var terminal: string
    var log: string
    var lineStart: bool
    var ticks: nat

    constructor (clock: Clock)
      ensures this.clock == clock && terminal == log == "" && lineStart && ticks == 0
    {
      this.clock, terminal, log, lineStart, ticks := clock, "", "", true, 0;
    }

    method LogPart(part: string)
      requires part != ""
      modifies this`log, this`lineStart, this`ticks
      ensures Tee(log, lineStart, ticks) == WritePart(clock, Tee(old(log), old(lineStart), old(ticks)), part)
    {
      if lineStart {
        log, ticks := log + (Prefix(clock, ticks) + part), ticks + 1;
      } else {
        log := log + part;
      }
      lineStart := part[|part| - 1] in {'\n', '\r'};
    }

    /** Mirror to the terminal; to the log with a timestamp at every line start. */
    method Write(text: string) returns (n: nat)
      modifies this
      ensures n == |text| && terminal == old(terminal) + text
      ensures Tee(log, lineStart, ticks) == WriteText(clock, Tee(old(log), old(lineStart), old(ticks)), text)
    {
      terminal := terminal + text;
      var rest := text;
      ghost var end := WriteText(clock, Tee(log, lineStart, ticks), text);
      while rest != ""
        invariant terminal == old(terminal) + text
        invariant WriteText(clock, Tee(log, lineStart, ticks), rest) == end
        decreases |rest|
      {
        var length := PartLength(rest);
        WriteUnfolds(clock, Tee(log, lineStart, ticks), rest);
        LogPart(rest[..length]);
        rest := rest[length..];
      }
      return |text|;
    }
  }
}
