/** Text post-processing and configuration helpers of `src/utils.ts`.
    The two regular-expression replacements are written out as the
    left-to-right, non-overlapping scans that a global `replace` performs. */
module TextUtils {
  import opened Wrappers

  /* ---------------------------------------------------------------------
     nullToEmptyString and getAuthToken
     --------------------------------------------------------------------- */

  /** `null` reads as the empty text; any other text is kept as it is. */
  function NullToEmptyString(str: Option<string>): (r: string)
    ensures str.None? ==> r == ""
    ensures str.Some? ==> r == str.value
  {
    match str
    case None => ""
    case Some(s) => s
  }

  /** The configured submission token, from the value of the `AUTH_TOKEN`
      environment variable (None when the variable is unset). An unset or
      empty variable both give "no token"; anything else is kept verbatim. */
  function GetAuthToken(env: Option<string>): (r: Option<string>)
    ensures r.None? <==> (env.None? || env.value == "")
    ensures r.Some? ==> r == env
    ensures r != Some("")
  {
    if env.None? || env.value == "" then None else env
  }

  /* ---------------------------------------------------------------------
     nl2br: every `\r\n`, `\r` or `\n` becomes `<br>`
     --------------------------------------------------------------------- */

  const Br := "<br>"

  /** The text holds a carriage return or a line feed. */
  predicate HasLineBreak(s: string) {
    '\r' in s || '\n' in s
  }

  /** Scan of `/(?:\r\n|\r|\n)/g`: at each position the alternatives are tried
      in order, so a `\r\n` pair is consumed as one line ending. */
  function Nl2Br(s: string): (r: string)
    ensures !HasLineBreak(r)
    decreases |s|
  {
    if |s| == 0 then ""
    else if |s| >= 2 && s[0] == '\r' && s[1] == '\n' then Br + Nl2Br(s[2..])
    else if s[0] == '\r' || s[0] == '\n' then Br + Nl2Br(s[1..])
    else [s[0]] + Nl2Br(s[1..])
  }

  /** Text without line endings passes through unchanged. */
  lemma {:induction false} Nl2BrUnchanged(s: string)
    requires !HasLineBreak(s)
    ensures Nl2Br(s) == s
    decreases |s|
  {
    if |s| > 0 {
      assert s[0] in s;
      assert !HasLineBreak(s[1..]) by {
        forall c | c in s[1..] ensures c in s {
          var k :| 0 <= k < |s[1..]| && s[1..][k] == c;
          assert s[k + 1] == c;
        }
      }
      Nl2BrUnchanged(s[1..]);
      assert s == [s[0]] + s[1..];
    }
  }

  /** Text is a fixed point of `Nl2Br` exactly when it has no line ending. */
  lemma Nl2BrFixedPoint(s: string)
    ensures Nl2Br(s) == s <==> !HasLineBreak(s)
  {
    if !HasLineBreak(s) {
      Nl2BrUnchanged(s);
    }
  }

  /** Applying `Nl2Br` a second time changes nothing. */
  lemma Nl2BrIdempotent(s: string)
    ensures Nl2Br(Nl2Br(s)) == Nl2Br(s)
  {
    Nl2BrUnchanged(Nl2Br(s));
  }

  /** A `\r\n` pair becomes one `<br>`, not two. */
  lemma Nl2BrCrLf(s: string)
    ensures Nl2Br("\r\n" + s) == Br + Nl2Br(s)
  {
    assert ("\r\n" + s)[2..] == s;
  }

  /** A lone `\r` or `\n` becomes one `<br>`, provided a `\r` is not the first
      half of a `\r\n` pair. */
  lemma Nl2BrSingle(c: char, s: string)
    requires c == '\n' || (c == '\r' && (|s| == 0 || s[0] != '\n'))
    ensures Nl2Br([c] + s) == Br + Nl2Br(s)
  {
    assert ([c] + s)[1..] == s;
  }

  /** Any other character is copied. */
  lemma Nl2BrPlain(c: char, s: string)
    requires c != '\r' && c != '\n'
    ensures Nl2Br([c] + s) == [c] + Nl2Br(s)
  {
    assert ([c] + s)[1..] == s;
  }

  /** `Nl2Br` works piece by piece, except across a `\r` | `\n` seam, which
      it reads as one line ending. */
  lemma {:induction false} Nl2BrConcat(a: string, b: string)
    requires !(|a| > 0 && a[|a| - 1] == '\r' && |b| > 0 && b[0] == '\n')
    ensures Nl2Br(a + b) == Nl2Br(a) + Nl2Br(b)
    decreases |a|, 1
  {
    if |a| == 0 {
      assert a + b == b;
    } else if |a| >= 2 && a[0] == '\r' && a[1] == '\n' {
      Nl2BrConcatCrLf(a, b);
    } else {
      var c, t := a[0], a[1..];
      assert a == [c] + t;
      if c == '\r' || c == '\n' {
        Nl2BrConcatSingle(c, t, b);
      } else {
        Nl2BrConcatPlain(c, t, b);
      }
    }
  }

  /** The step of `Nl2BrConcat` where `a` starts with a `\r\n` pair. */
  lemma {:induction false} Nl2BrConcatCrLf(a: string, b: string)
    requires |a| >= 2 && a[0] == '\r' && a[1] == '\n'
    requires !(a[|a| - 1] == '\r' && |b| > 0 && b[0] == '\n')
    ensures Nl2Br(a + b) == Nl2Br(a) + Nl2Br(b)
    decreases |a|, 0
  {
    var t := a[2..];
    assert a == "\r\n" + t;
    assert a + b == "\r\n" + (t + b);
    Nl2BrCrLf(t + b);
    Nl2BrCrLf(t);
    Nl2BrConcat(t, b);
  }

  /** The step of `Nl2BrConcat` where `a` starts with a lone `\r` or `\n`. */
  lemma {:induction false} Nl2BrConcatSingle(c: char, t: string, b: string)
    requires c == '\n' || (c == '\r' && (|t| == 0 || t[0] != '\n'))
    requires |t| == 0 ==> !(c == '\r' && |b| > 0 && b[0] == '\n')
    requires !(|t| > 0 && t[|t| - 1] == '\r' && |b| > 0 && b[0] == '\n')
    ensures Nl2Br([c] + t + b) == Nl2Br([c] + t) + Nl2Br(b)
    decreases |t| + 1, 0
  {
    var x, y := Nl2Br(t), Nl2Br(b);
    calc {
      Nl2Br([c] + t + b);
      { assert [c] + t + b == [c] + (t + b); }
      Nl2Br([c] + (t + b));
      { assert |t| == 0 ==> t + b == b; Nl2BrSingle(c, t + b); }
      Br + Nl2Br(t + b);
      { Nl2BrConcat(t, b); }
      Br + (x + y);
      Br + x + y;
      { Nl2BrSingle(c, t); }
      Nl2Br([c] + t) + y;
    }
  }

  /** The step of `Nl2BrConcat` where `a` starts with a character that is
      copied. */
  lemma {:induction false} Nl2BrConcatPlain(c: char, t: string, b: string)
    requires c != '\r' && c != '\n'
    requires !(|t| > 0 && t[|t| - 1] == '\r' && |b| > 0 && b[0] == '\n')
    ensures Nl2Br([c] + t + b) == Nl2Br([c] + t) + Nl2Br(b)
    decreases |t| + 1, 0
  {
    var x, y := Nl2Br(t), Nl2Br(b);
    calc {
      Nl2Br([c] + t + b);
      { assert [c] + t + b == [c] + (t + b); }
      Nl2Br([c] + (t + b));
      { Nl2BrPlain(c, t + b); }
      [c] + Nl2Br(t + b);
      { Nl2BrConcat(t, b); }
      [c] + (x + y);
      [c] + x + y;
      { Nl2BrPlain(c, t); }
      Nl2Br([c] + t) + y;
    }
  }

  /** The lines joined with `sep` between consecutive ones. */
  function JoinLines(lines: seq<string>, sep: string): string
    decreases |lines|
  {
    if |lines| == 0 then ""
    else if |lines| == 1 then lines[0]
    else lines[0] + sep + JoinLines(lines[1..], sep)
  }

  /** A single line ending, in any of the three conventions. */
  predicate IsLineEnding(t: string) {
    t == "\n" || t == "\r\n" || t == "\r"
  }

  /** Joined lines start with the first character of the first line, or with
      the separator when that line is empty. */
  lemma {:induction false} JoinLinesNoLeadingLf(lines: seq<string>, sep: string)
    requires forall i :: 0 <= i < |lines| ==> !HasLineBreak(lines[i])
    requires |sep| > 0 && sep[0] != '\n'
    ensures |JoinLines(lines, sep)| == 0 || JoinLines(lines, sep)[0] != '\n'
    decreases |lines|
  {
    if |lines| >= 2 {
      if |lines[0]| == 0 {
        assert JoinLines(lines, sep)[0] == sep[0];
      } else {
        assert lines[0][0] in lines[0];
        assert JoinLines(lines, sep)[0] == lines[0][0];
      }
    } else if |lines| == 1 && |lines[0]| > 0 {
      assert lines[0][0] in lines[0];
    }
  }

  /** A line, then one line ending, then the rest of the text: the line is
      kept and the ending becomes `<br>`. */
  lemma Nl2BrLineThenEnding(line: string, t: string, rest: string)
    requires !HasLineBreak(line)
    requires IsLineEnding(t)
    requires t == "\r" ==> |rest| == 0 || rest[0] != '\n'
    ensures Nl2Br(line + (t + rest)) == line + (Br + Nl2Br(rest))
  {
    if |line| > 0 {
      assert line[|line| - 1] in line;
    }
    Nl2BrConcat(line, t + rest);
    Nl2BrUnchanged(line);
    if t == "\r\n" {
      Nl2BrCrLf(rest);
    } else {
      assert t + rest == [t[0]] + rest;
      Nl2BrSingle(t[0], rest);
    }
  }

  /** Lines separated by one and the same line-ending convention come out
      separated by `<br>`: the three conventions are treated alike. */
  lemma {:induction false} Nl2BrJoinLines(lines: seq<string>, t: string)
    requires forall i :: 0 <= i < |lines| ==> !HasLineBreak(lines[i])
    requires IsLineEnding(t)
    ensures Nl2Br(JoinLines(lines, t)) == JoinLines(lines, Br)
    decreases |lines|
  {
    if |lines| == 1 {
      Nl2BrUnchanged(lines[0]);
    } else if |lines| >= 2 {
      var rest := JoinLines(lines[1..], t);
      assert JoinLines(lines, t) == lines[0] + (t + rest);
      if t == "\r" {
        JoinLinesNoLeadingLf(lines[1..], t);
      }
      Nl2BrLineThenEnding(lines[0], t, rest);
      Nl2BrJoinLines(lines[1..], t);
      assert JoinLines(lines, Br) == lines[0] + (Br + JoinLines(lines[1..], Br));
    }
  }

  /** Lines with their own line ending after each but the last; the endings
      may follow different conventions. */
  function Interleave(lines: seq<string>, ends: seq<string>): string
    requires |lines| == |ends| + 1
    decreases |ends|
  {
    if |ends| == 0 then lines[0] else lines[0] + ends[0] + Interleave(lines[1..], ends[1..])
  }

  /** Well-formed lines and endings: no line holds a line break and every
      ending is one of the three conventions. */
  predicate WellFormedLines(lines: seq<string>, ends: seq<string>) {
    && |lines| == |ends| + 1
    && (forall i :: 0 <= i < |lines| ==> !HasLineBreak(lines[i]))
    && (forall i :: 0 <= i < |ends| ==> IsLineEnding(ends[i]))
  }

  /** A `\r` ending, an empty line and a `\n` ending spell `\r\n`, which the
      rewrite reads as one line ending. */
  predicate SwallowsLine(lines: seq<string>, ends: seq<string>, i: int)
    requires |lines| == |ends| + 1
  {
    0 <= i < |ends| - 1 && ends[i] == "\r" && lines[i + 1] == "" && ends[i + 1] == "\n"
  }

  /** Interleaved lines start with a line feed only when the first line is
      empty and the first ending is a line feed. */
  lemma InterleaveNoLeadingLf(lines: seq<string>, ends: seq<string>)
    requires WellFormedLines(lines, ends)
    requires |lines[0]| > 0 || |ends| == 0 || ends[0] != "\n"
    ensures |Interleave(lines, ends)| == 0 || Interleave(lines, ends)[0] != '\n'
  {
    if |lines[0]| > 0 {
      assert lines[0][0] in lines[0];
      if |ends| > 0 {
        assert Interleave(lines, ends)[0] == lines[0][0];
      }
    } else if |ends| > 0 {
      assert Interleave(lines, ends) == ends[0] + Interleave(lines[1..], ends[1..]);
    }
  }

  /** Dropping the first line and ending keeps the lines well formed and
      creates no swallowed line. */
  lemma InterleaveTail(lines: seq<string>, ends: seq<string>)
    requires WellFormedLines(lines, ends) && |ends| > 0
    requires forall i :: !SwallowsLine(lines, ends, i)
    ensures WellFormedLines(lines[1..], ends[1..])
    ensures forall i :: !SwallowsLine(lines[1..], ends[1..], i)
  {
    forall i ensures !SwallowsLine(lines[1..], ends[1..], i) {
      assert !SwallowsLine(lines, ends, i + 1);
    }
  }

  /** Interleaved lines start with the first line and its ending. */
  lemma InterleaveUnfold(lines: seq<string>, ends: seq<string>)
    requires |lines| == |ends| + 1 && |ends| > 0
    ensures Interleave(lines, ends) == lines[0] + (ends[0] + Interleave(lines[1..], ends[1..]))
  {
  }

  /** Joined lines start with the first line and the separator. */
  lemma JoinLinesUnfold(lines: seq<string>, sep: string)
    requires |lines| >= 2
    ensures JoinLines(lines, sep) == lines[0] + (sep + JoinLines(lines[1..], sep))
  {
  }

  /** The first ending of well-formed lines becomes `<br>` unless it swallows
      the next line. */
  lemma Nl2BrInterleaveStep(lines: seq<string>, ends: seq<string>)
    requires WellFormedLines(lines, ends) && |ends| > 0
    requires WellFormedLines(lines[1..], ends[1..])
    requires !SwallowsLine(lines, ends, 0)
    ensures Nl2Br(Interleave(lines, ends)) == lines[0] + (Br + Nl2Br(Interleave(lines[1..], ends[1..])))
  {
    InterleaveUnfold(lines, ends);
    if ends[0] == "\r" {
      InterleaveNoLeadingLf(lines[1..], ends[1..]);
    }
    Nl2BrLineThenEnding(lines[0], ends[0], Interleave(lines[1..], ends[1..]));
  }

  /** Lines separated by any mix of the three conventions come out separated
      by `<br>`, one per ending, unless a `\r` ending, an empty line and a
      `\n` ending meet. */
  lemma {:induction false} Nl2BrInterleave(lines: seq<string>, ends: seq<string>)
    requires WellFormedLines(lines, ends)
    requires forall i :: !SwallowsLine(lines, ends, i)
    ensures Nl2Br(Interleave(lines, ends)) == JoinLines(lines, Br)
    decreases |ends|
  {
    if |ends| == 0 {
      Nl2BrUnchanged(lines[0]);
    } else {
      InterleaveTail(lines, ends);
      Nl2BrInterleaveStep(lines, ends);
      Nl2BrInterleave(lines[1..], ends[1..]);
      JoinLinesUnfold(lines, Br);
    }
  }

  /** The excluded case spelled out: the `\r` ending, the empty line and the
      `\n` ending form one `\r\n`. */
  lemma InterleaveSwallowText(a: string, b: string)
    ensures Interleave([a, "", b], ["\r", "\n"]) == a + ("\r\n" + b)
  {
    InterleaveUnfold([a, "", b], ["\r", "\n"]);
    assert [a, "", b][1..] == ["", b] && ["\r", "\n"][1..] == ["\n"];
    InterleaveUnfold(["", b], ["\n"]);
    assert ["", b][1..] == [b] && ["\n"][1..] == [];
    assert "\r" + ("" + ("\n" + b)) == "\r\n" + b;
  }

  /** Three lines, the middle one empty, joined with `<br>` keep two `<br>`. */
  lemma JoinLinesEmptyMiddle(a: string, b: string)
    ensures |JoinLines([a, "", b], Br)| == |a| + |b| + 2 * |Br|
  {
    JoinLinesUnfold([a, "", b], Br);
    assert [a, "", b][1..] == ["", b];
    JoinLinesUnfold(["", b], Br);
    assert ["", b][1..] == [b];
  }

  /** The excluded case: a `\r` ending, an empty line and a `\n` ending make
      one `<br>`, so the empty line is lost. */
  lemma Nl2BrSwallowsEmptyLine(a: string, b: string)
    requires !HasLineBreak(a) && !HasLineBreak(b)
    ensures Nl2Br(Interleave([a, "", b], ["\r", "\n"])) == a + Br + b
    ensures Nl2Br(Interleave([a, "", b], ["\r", "\n"])) != JoinLines([a, "", b], Br)
  {
    InterleaveSwallowText(a, b);
    Nl2BrLineThenEnding(a, "\r\n", b);
    Nl2BrUnchanged(b);
    assert a + (Br + b) == a + Br + b;
    JoinLinesEmptyMiddle(a, b);
  }

  /* ---------------------------------------------------------------------
     removeMarkdownCodeBlocks: two passes over the text
     --------------------------------------------------------------------- */

  /** A triple backtick begins the text. */
  predicate StartsWithFence(s: string) {
    |s| >= 3 && s[0] == '`' && s[1] == '`' && s[2] == '`'
  }

  /** A triple backtick occurs somewhere in the text. */
  predicate HasFence(s: string)
    decreases |s|
  {
    |s| >= 3 && (StartsWithFence(s) || HasFence(s[1..]))
  }

  /** The character class `[a-zA-Z]`. */
  predicate IsAsciiLetter(c: char) {
    ('a' <= c <= 'z') || ('A' <= c <= 'Z')
  }

  /** The prefix `s[..n]` is a match of `/```[a-zA-Z]*\n/`. */
  predicate IsOpeningFence(s: string, n: int) {
    && 4 <= n <= |s|
    && StartsWithFence(s)
    && s[n - 1] == '\n'
    && forall i :: 3 <= i < n - 1 ==> IsAsciiLetter(s[i])
  }

  /** Length of the longest run of ASCII letters at the start of the text. */
  function LetterRun(s: string): (n: nat)
    ensures n <= |s|
    ensures forall i :: 0 <= i < n ==> IsAsciiLetter(s[i])
    ensures n < |s| ==> !IsAsciiLetter(s[n])
    decreases |s|
  {
    if |s| == 0 || !IsAsciiLetter(s[0]) then 0 else 1 + LetterRun(s[1..])
  }

  /** Length of the opening fence matched at the start of the text, if any.
      Since a line feed is not a letter, at most one length can match, so the
      greedy `[a-zA-Z]*` never needs to give characters back. */
  function OpeningFenceLength(s: string): (r: Option<nat>)
    ensures r.Some? ==> IsOpeningFence(s, r.value)
    ensures r.Some? ==> forall n :: IsOpeningFence(s, n) ==> n == r.value
    ensures r.None? ==> forall n :: !IsOpeningFence(s, n)
  {
    if !StartsWithFence(s) then None
    else
      var k := LetterRun(s[3..]);
      assert forall n :: IsOpeningFence(s, n) ==> n == 4 + k by {
        forall n | IsOpeningFence(s, n) ensures n == 4 + k {
        }
      }
      if 3 + k < |s| && s[3 + k] == '\n' then Some(4 + k) else None
  }

  /** First pass, `/```[a-zA-Z]*\n/g`: opening fences with their language tag
      and line feed are deleted; the scan resumes right after each match. */
  function StripOpeningFences(s: string): (r: string)
    decreases |s|
  {
    if |s| == 0 then ""
    else match OpeningFenceLength(s)
      case Some(n) => StripOpeningFences(s[n..])
      case None => [s[0]] + StripOpeningFences(s[1..])
  }

  /** Second pass, `/```/g`: every remaining triple backtick is deleted. */
  function StripFences(s: string): (r: string)
    decreases |s|
  {
    if |s| == 0 then ""
    else if StartsWithFence(s) then StripFences(s[3..])
    else [s[0]] + StripFences(s[1..])
  }

  /** Both passes, in order. */
  function RemoveMarkdownCodeBlocks(text: string): (r: string)
    ensures !HasFence(r)
  {
    var t := StripOpeningFences(text);
    StripFencesLeavesNoFence(t);
    StripFences(t)
  }

  /** Dropping the first character cannot create a fence. */
  lemma NoFenceTail(s: string)
    requires |s| > 0 && !HasFence(s)
    ensures !HasFence(s[1..])
  {
  }

  /** Without a triple backtick the first pass finds nothing to delete. */
  lemma {:induction false} StripOpeningFencesUnchanged(s: string)
    requires !HasFence(s)
    ensures StripOpeningFences(s) == s
    decreases |s|
  {
    if |s| > 0 {
      assert !StartsWithFence(s);
      assert OpeningFenceLength(s).None?;
      NoFenceTail(s);
      StripOpeningFencesUnchanged(s[1..]);
      assert s == [s[0]] + s[1..];
    }
  }

  /** Without a triple backtick the second pass finds nothing to delete. */
  lemma {:induction false} StripFencesUnchanged(s: string)
    requires !HasFence(s)
    ensures StripFences(s) == s
    decreases |s|
  {
    if |s| > 0 {
      NoFenceTail(s);
      StripFencesUnchanged(s[1..]);
      assert s == [s[0]] + s[1..];
    }
  }

  /** Outside a fence, the second pass keeps the first character. */
  lemma StripFencesHead(s: string)
    requires |s| > 0 && !StartsWithFence(s)
    ensures |StripFences(s)| > 0 && StripFences(s)[0] == s[0]
  {
  }

  /** No triple backtick survives the second pass. A character kept in front
      of the rest of the output is a backtick only when fewer than three
      backticks follow it in the input, and the rest of the output then
      starts as the input does. */
  lemma {:induction false} StripFencesLeavesNoFence(s: string)
    ensures !HasFence(StripFences(s))
    decreases |s|
  {
    if |s| > 0 {
      if StartsWithFence(s) {
        StripFencesLeavesNoFence(s[3..]);
      } else {
        var rest := StripFences(s[1..]);
        StripFencesLeavesNoFence(s[1..]);
        var r := [s[0]] + rest;
        assert r[1..] == rest;
        // the first two characters of rest are those of s[1..], unless a
        // fence starts there, which would put a fence at the front of s
        if |s| >= 2 && !StartsWithFence(s[1..]) {
          StripFencesHead(s[1..]);
          assert rest == [s[1]] + StripFences(s[2..]);
        }
        if |s| >= 3 && !StartsWithFence(s[2..]) {
          StripFencesHead(s[2..]);
        }
        assert !StartsWithFence(r);
      }
    }
  }

  /** A text without a triple backtick comes back unchanged. */
  lemma RemoveMarkdownCodeBlocksUnchanged(s: string)
    requires !HasFence(s)
    ensures RemoveMarkdownCodeBlocks(s) == s
  {
    StripOpeningFencesUnchanged(s);
    StripFencesUnchanged(s);
  }

  /** Post-processing a second time changes nothing. */
  lemma RemoveMarkdownCodeBlocksIdempotent(s: string)
    ensures RemoveMarkdownCodeBlocks(RemoveMarkdownCodeBlocks(s)) == RemoveMarkdownCodeBlocks(s)
  {
    RemoveMarkdownCodeBlocksUnchanged(RemoveMarkdownCodeBlocks(s));
  }

  /** `n` backticks in a row. */
  function Backticks(n: nat): string
    decreases n
  {
    if n == 0 then "" else ['`'] + Backticks(n - 1)
  }

  /** A leading triple backtick is dropped by the second pass. */
  lemma StripFencesDropsFence(u: string)
    ensures StripFences("```" + u) == StripFences(u)
  {
    assert ("```" + u)[3..] == u;
  }

  /** Outside a fence, the second pass copies the leading character. */
  lemma StripFencesKeepsHead(c: char, u: string)
    requires !StartsWithFence([c] + u)
    ensures StripFences([c] + u) == [c] + StripFences(u)
  {
    assert ([c] + u)[1..] == u;
  }

  /** A run of at least three backticks starts with a triple backtick. */
  lemma BackticksFence(n: nat)
    requires n >= 3
    ensures Backticks(n) == "```" + Backticks(n - 3)
  {
    var b := Backticks(n - 3);
    assert Backticks(n - 2) == ['`'] + b;
    assert Backticks(n - 1) == ['`'] + Backticks(n - 2);
    assert Backticks(n) == ['`'] + Backticks(n - 1);
  }

  /** The second pass shrinks a run of `n` backticks to `n % 3` of them. */
  lemma {:induction false} StripFencesBacktickRun(n: nat, t: string)
    requires |t| == 0 || t[0] != '`'
    ensures StripFences(Backticks(n) + t) == Backticks(n % 3) + StripFences(t)
    decreases n
  {
    if n >= 3 {
      var b := Backticks(n - 3);
      BackticksFenceThen(n, t);
      StripFencesDropsFence(b + t);
      StripFencesBacktickRun(n - 3, t);
      assert (n - 3) % 3 == n % 3;
    } else {
      StripFencesShortRun(n, t);
    }
  }

  /** A run of at least three backticks, then more text, starts with a
      triple backtick. */
  lemma BackticksFenceThen(n: nat, t: string)
    requires n >= 3
    ensures Backticks(n) + t == "```" + (Backticks(n - 3) + t)
  {
    BackticksFence(n);
  }

  /** A run of fewer than three backticks is kept by the second pass. */
  lemma StripFencesShortRun(n: nat, t: string)
    requires n < 3
    requires |t| == 0 || t[0] != '`'
    ensures StripFences(Backticks(n) + t) == Backticks(n) + StripFences(t)
  {
    if n == 0 {
      assert Backticks(n) + t == t;
    } else if n == 1 {
      StripFencesOneBacktick(t);
    } else {
      assert Backticks(n) == ['`', '`'];
      StripFencesTwoBackticks(Backticks(n), t);
    }
  }

  /** One backtick before a non-backtick is kept by the second pass. */
  lemma StripFencesOneBacktick(t: string)
    requires |t| == 0 || t[0] != '`'
    ensures StripFences(Backticks(1) + t) == Backticks(1) + StripFences(t)
  {
    var b := Backticks(1);
    assert b == ['`'];
    StripFencesKeepsHead('`', t);
  }

  /** Two backticks before a non-backtick are kept by the second pass. */
  lemma StripFencesTwoBackticks(b: string, t: string)
    requires b == ['`', '`']
    requires |t| == 0 || t[0] != '`'
    ensures StripFences(b + t) == b + StripFences(t)
  {
    assert b + t == ['`'] + (['`'] + t);
    StripFencesKeepsTwo(t);
    assert b + StripFences(t) == ['`'] + (['`'] + StripFences(t));
  }

  /** Two backticks before a non-backtick are kept by the second pass. */
  lemma StripFencesKeepsTwo(t: string)
    requires |t| == 0 || t[0] != '`'
    ensures StripFences(['`'] + (['`'] + t)) == ['`'] + (['`'] + StripFences(t))
  {
    var u := ['`'] + t;
    assert u[1..] == t;
    assert !StartsWithFence(['`'] + u) by {
      assert |t| > 0 ==> (['`'] + u)[2] == t[0];
    }
    StripFencesKeepsHead('`', u);
    StripFencesKeepsHead('`', t);
  }

  /** A prefix free of backticks goes through the first pass untouched. */
  lemma {:induction false} StripOpeningFencesPlain(b: string, t: string)
    requires '`' !in b
    ensures StripOpeningFences(b + t) == b + StripOpeningFences(t)
    decreases |b|
  {
    if |b| == 0 {
      assert b + t == t;
    } else {
      var s := b + t;
      assert s[0] == b[0] && b[0] in b;
      assert s[1..] == b[1..] + t;
      assert '`' !in b[1..];
      StripOpeningFencesPlain(b[1..], t);
    }
  }

  /** A prefix free of backticks goes through the second pass untouched. */
  lemma {:induction false} StripFencesPlain(b: string, t: string)
    requires '`' !in b
    ensures StripFences(b + t) == b + StripFences(t)
    decreases |b|
  {
    if |b| == 0 {
      assert b + t == t;
    } else {
      var s := b + t;
      assert s[0] == b[0] && b[0] in b;
      assert s[1..] == b[1..] + t;
      assert '`' !in b[1..];
      StripFencesPlain(b[1..], t);
    }
  }

  /** A fenced block ``` + lang + \n + body + ``` with an ASCII-letter
      language tag and a body free of backticks comes back as the body. */
  lemma RemoveFencedBlock(lang: string, body: string)
    requires forall i :: 0 <= i < |lang| ==> IsAsciiLetter(lang[i])
    requires '`' !in body
    ensures RemoveMarkdownCodeBlocks("```" + lang + "\n" + body + "```") == body
  {
    var s := "```" + lang + "\n" + body + "```";
    var n := 4 + |lang|;
    assert IsOpeningFence(s, n) by {
      forall i | 3 <= i < n - 1 ensures IsAsciiLetter(s[i]) {
        assert s[i] == lang[i - 3];
      }
    }
    assert OpeningFenceLength(s) == Some(n);
    assert s[n..] == body + "```";
    StripOpeningFencesPlain(body, "```");
    assert OpeningFenceLength("```").None?;
    assert "```"[1..] == "``";
    assert "``"[1..] == "`";
    assert "`"[1..] == "";
    assert StripOpeningFences("```") == "```";
    StripFencesPlain(body, "```");
    assert "```"[3..] == "";
    assert body + "" == body;
  }

  /** Where no opening fence matches, the first pass copies the leading
      character. */
  lemma StripOpeningFencesNoMatch(s: string)
    requires |s| > 0 && OpeningFenceLength(s).None?
    ensures StripOpeningFences(s) == [s[0]] + StripOpeningFences(s[1..])
  {
  }

  /** The `\r` after the tag stops the match of an opening fence. */
  lemma CrLfFenceNotOpening(lang: string, rest: string)
    requires forall i :: 0 <= i < |lang| ==> IsAsciiLetter(lang[i])
    ensures OpeningFenceLength("```" + lang + "\r\n" + rest).None?
  {
    var s := "```" + lang + "\r\n" + rest;
    assert s[3 + |lang|] == '\r';
    forall n | IsOpeningFence(s, n) ensures false {
    }
  }

  /** A tag of ASCII letters, then `\r\n` and a body without backticks: no
      backtick anywhere. */
  lemma CrLfTagNoBacktick(lang: string, body: string)
    requires forall i :: 0 <= i < |lang| ==> IsAsciiLetter(lang[i])
    requires '`' !in body
    ensures '`' !in lang + "\r\n" + body
  {
    forall i | 0 <= i < |lang| ensures lang[i] != '`' {
      assert IsAsciiLetter(lang[i]);
    }
  }

  /** A closing triple backtick alone is kept by the first pass. */
  lemma StripOpeningFencesClosing()
    ensures StripOpeningFences("```") == "```"
  {
    assert OpeningFenceLength("```").None?;
    assert "```"[1..] == "``" && "``"[1..] == "`" && "`"[1..] == "";
  }

  /** With `\r\n` after the tag, the first pass changes nothing. */
  lemma CrLfFenceFirstPass(lang: string, body: string)
    requires forall i :: 0 <= i < |lang| ==> IsAsciiLetter(lang[i])
    requires '`' !in body
    ensures StripOpeningFences("```" + lang + "\r\n" + body + "```") == "```" + lang + "\r\n" + body + "```"
  {
    var inner := lang + "\r\n" + body;
    var s := "```" + lang + "\r\n" + body + "```";
    var t := inner + "```";
    assert s[3..] == t;
    assert s[3] != '`' by {
      assert |lang| > 0 ==> s[3] == lang[0] && IsAsciiLetter(lang[0]);
    }
    assert StripOpeningFences(t) == t by {
      CrLfTagNoBacktick(lang, body);
      StripOpeningFencesPlain(inner, "```");
      StripOpeningFencesClosing();
    }
    calc {
      StripOpeningFences(s);
      { assert s == "```" + lang + "\r\n" + (body + "```");
        CrLfFenceNotOpening(lang, body + "```");
        StripOpeningFencesNoMatch(s); }
      [s[0]] + StripOpeningFences(s[1..]);
      { assert s[1..][1..] == s[2..];
        StripOpeningFencesNoMatch(s[1..]); }
      [s[0]] + ([s[1]] + StripOpeningFences(s[2..]));
      { assert s[2..][1..] == t;
        StripOpeningFencesNoMatch(s[2..]); }
      [s[0]] + ([s[1]] + ([s[2]] + t));
      { assert s == [s[0]] + ([s[1]] + ([s[2]] + s[3..])); }
      s;
    }
  }

  /** The first pass only accepts a line feed right after the tag: with a
      `\r\n` line ending the language tag is left in the text. */
  lemma CrLfFenceKeepsTag(lang: string, body: string)
    requires forall i :: 0 <= i < |lang| ==> IsAsciiLetter(lang[i])
    requires '`' !in body
    ensures RemoveMarkdownCodeBlocks("```" + lang + "\r\n" + body + "```") == lang + "\r\n" + body
  {
    var inner := lang + "\r\n" + body;
    var s := "```" + lang + "\r\n" + body + "```";
    calc {
      RemoveMarkdownCodeBlocks(s);
      { CrLfFenceFirstPass(lang, body); }
      StripFences(s);
      { assert s == "```" + (inner + "```"); }
      StripFences("```" + (inner + "```"));
      { StripFencesDropsFence(inner + "```"); }
      StripFences(inner + "```");
      { CrLfTagNoBacktick(lang, body);
        StripFencesPlain(inner, "```"); }
      inner + StripFences("```");
      { assert "```"[3..] == ""; }
      inner + "";
      inner;
    }
  }
}
