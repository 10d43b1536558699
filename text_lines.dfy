/**
 The text primitives the builder relies on: the line terminator, the run of
 spaces used as an indentation prefix, the line split AppendBody performs
 (on "\r\n" and "\n", keeping empty segments) and the text a sequence of
 prefixed, terminated lines adds to the buffer.
 */
module TextLines {

  /** `Environment.NewLine`, fixed to a single line feed. */
  const NL: string := "\n"

  /** The prefix of one line at a given depth: `padding` spaces per level. */
  function Indentation(depth: nat, padding: nat): (r: string)
    ensures |r| == depth * padding
    ensures forall i | 0 <= i < |r| :: r[i] == ' '
  {
    seq(depth * padding, _ => ' ')
  }

  /** One level deeper adds exactly one level's worth of spaces after the current prefix. */
  lemma IndentationNests(depth: nat, padding: nat)
    ensures Indentation(depth + 1, padding) == Indentation(depth, padding) + Indentation(1, padding)
  {
  }

  /** One line: the prefix, the text as given, one terminator. */
  function Line(prefix: string, text: string): (r: string)
    ensures |r| == |prefix| + |text| + 1
    ensures r[|r| - 1] == '\n'
  {
    prefix + text + NL
  }

  /** A line can be taken apart again: the prefix, then the text, then the terminator. */
  lemma LineParts(prefix: string, text: string)
    ensures Line(prefix, text)[..|prefix|] == prefix
    ensures Line(prefix, text)[|prefix|..|prefix| + |text|] == text
    ensures Line(prefix, text)[|prefix| + |text|..] == NL
  {
  }

  /** The lines in order, each written with the same prefix and its own terminator. */
  function Block(prefix: string, lines: seq<string>): (r: string)
    ensures |r| == |lines| * (|prefix| + |NL|) + SumOfLengths(lines)
  {
    if |lines| == 0 then ""
    else Block(prefix, lines[..|lines| - 1]) + Line(prefix, lines[|lines| - 1])
  }

  function SumOfLengths(lines: seq<string>): nat
  {
    if |lines| == 0 then 0 else SumOfLengths(lines[..|lines| - 1]) + |lines[|lines| - 1]|
  }

  /** A block of lines is those lines, each written with the prefix and the terminator, in order. */
  lemma {:induction false} BlockAppend(prefix: string, a: seq<string>, b: seq<string>)
    ensures Block(prefix, a + b) == Block(prefix, a) + Block(prefix, b)
    decreases |b|
  {
    if |b| == 0 {
      assert a + b == a;
    } else {
      var b' := b[..|b| - 1];
      assert (a + b)[..|a + b| - 1] == a + b';
      assert (a + b)[|a + b| - 1] == b[|b| - 1];
      BlockAppend(prefix, a, b');
    }
  }

  /** Does a "\r\n" pair start at position `i` of `t`? */
  predicate IsCrLf(t: string, i: nat)
  {
    i + 1 < |t| && t[i] == '\r' && t[i + 1] == '\n'
  }

  /**
   The segments the .NET string split yields for the separators "\r\n" and "\n", empty entries kept.
   At each position the separators are tried in order: "\r\n" counts as one
   break, a lone '\n' as one break, and a lone '\r' stays inside its segment.
   Empty segments are kept, so there is always at least one segment.
   */
  function SplitLines(t: string): (r: seq<string>)
    ensures |r| >= 1
    ensures forall i | 0 <= i < |r| :: '\n' !in r[i]
    decreases |t|
  {
    if |t| == 0 then [""]
    else if IsCrLf(t, 0) then [""] + SplitLines(t[2..])
    else if t[0] == '\n' then [""] + SplitLines(t[1..])
    else
      var rest := SplitLines(t[1..]);
      [[t[0]] + rest[0]] + rest[1..]
  }

  /** The separators `SplitLines` consumed, in order: each is "\r\n" or "\n". */
  function Separators(t: string): (r: seq<string>)
    ensures |r| == |SplitLines(t)| - 1
    ensures forall i | 0 <= i < |r| :: r[i] == "\r\n" || r[i] == "\n"
    decreases |t|
  {
    if |t| == 0 then []
    else if IsCrLf(t, 0) then ["\r\n"] + Separators(t[2..])
    else if t[0] == '\n' then ["\n"] + Separators(t[1..])
    else Separators(t[1..])
  }

  /** Interleaves segments with the separators between them. */
  function Join(segments: seq<string>, separators: seq<string>): string
    requires |segments| == |separators| + 1
    decreases |segments|
  {
    if |segments| == 1 then segments[0]
    else segments[0] + separators[0] + Join(segments[1..], separators[1..])
  }

  /** Joins segments with one fixed separator. */
  function JoinWith(segments: seq<string>, separator: string): string
    requires |segments| >= 1
    decreases |segments|
  {
    if |segments| == 1 then segments[0]
    else segments[0] + separator + JoinWith(segments[1..], separator)
  }

  lemma JoinConsChar(c: char, segments: seq<string>, separators: seq<string>)
    requires |segments| == |separators| + 1
    ensures Join([[c] + segments[0]] + segments[1..], separators) == [c] + Join(segments, separators)
  {
  }

  /** Splitting loses nothing: the segments joined with the separators found give back the text. */
  lemma {:induction false} SplitLinesJoin(t: string)
    ensures Join(SplitLines(t), Separators(t)) == t
    decreases |t|
  {
    if |t| == 0 {
    } else if IsCrLf(t, 0) {
      SplitLinesJoin(t[2..]);
      assert t == "\r\n" + t[2..];
    } else if t[0] == '\n' {
      SplitLinesJoin(t[1..]);
      assert t == "\n" + t[1..];
    } else {
      SplitLinesJoin(t[1..]);
      JoinConsChar(t[0], SplitLines(t[1..]), Separators(t[1..]));
      assert t == [t[0]] + t[1..];
    }
  }

  predicate EndsWithCr(s: string)
  {
    |s| > 0 && s[|s| - 1] == '\r'
  }

  /** A segment without '\n' in front of text that does not glue a '\r' to a '\n' joins the first segment. */
  lemma {:induction false} SplitLinesPrefix(w: string, x: string)
    requires '\n' !in w
    requires EndsWithCr(w) ==> !(|x| > 0 && x[0] == '\n')
    ensures SplitLines(w + x) == [w + SplitLines(x)[0]] + SplitLines(x)[1..]
    decreases |w|
  {
    if |w| == 0 {
      var r := SplitLines(x);
      assert w + x == x && w + r[0] == r[0];
      assert r == [r[0]] + r[1..];
    } else {
      var t := w + x;
      assert t[1..] == w[1..] + x;
      assert t[0] == w[0];
      assert !IsCrLf(t, 0) by {
        if |w| == 1 { assert t[1..] == x; } else { assert t[1] == w[1]; }
      }
      assert '\n' !in w[1..] by {
        forall k | 0 <= k < |w[1..]| ensures w[1..][k] != '\n' { assert w[1..][k] == w[k + 1]; }
      }
      assert EndsWithCr(w[1..]) ==> EndsWithCr(w);
      SplitLinesPrefix(w[1..], x);
      assert [w[0]] + (w[1..] + SplitLines(x)[0]) == w + SplitLines(x)[0];
    }
  }

  lemma NoNewlineSplitsToItself(w: string)
    requires '\n' !in w
    ensures SplitLines(w) == [w]
  {
    SplitLinesPrefix(w, "");
    assert w + "" == w;
    assert w + SplitLines("")[0] == w;
  }

  /**
   Joining segments that hold no '\n' with "\r\n" (or with "\n", when no segment
   but the last ends with '\r') and splitting again gives back the same segments.
   */
  lemma {:induction false} JoinWithSplitLines(segments: seq<string>, separator: string)
    requires separator == "\r\n" || separator == "\n"
    requires |segments| >= 1
    requires forall i | 0 <= i < |segments| :: '\n' !in segments[i]
    requires separator == "\n" ==> forall i | 0 <= i < |segments| - 1 :: !EndsWithCr(segments[i])
    ensures SplitLines(JoinWith(segments, separator)) == segments
    decreases |segments|
  {
    if |segments| == 1 {
      NoNewlineSplitsToItself(segments[0]);
    } else {
      var w, tail := segments[0], JoinWith(segments[1..], separator);
      JoinWithSplitLines(segments[1..], separator);
      var x := separator + tail;
      assert JoinWith(segments, separator) == w + x;
      assert x[0] == separator[0];
      SplitLinesPrefix(w, x);
      if separator == "\r\n" {
        assert IsCrLf(x, 0);
        assert x[2..] == tail;
      } else {
        assert x[1..] == tail;
      }
      assert SplitLines(x) == [""] + segments[1..];
      assert w + "" == w;
    }
  }

  /**
   Segments that hold no '\n', joined with any mix of "\r\n" and "\n" separators
   (a "\n" never following a segment that ends in '\r'), split back into the
   same segments: "\r\n" is always taken as one separator.
   */
  lemma {:induction false} MixedRoundTrip(segments: seq<string>, separators: seq<string>)
    requires |segments| == |separators| + 1
    requires forall i | 0 <= i < |segments| :: '\n' !in segments[i]
    requires forall i | 0 <= i < |separators| :: separators[i] == "\r\n" || separators[i] == "\n"
    requires forall i | 0 <= i < |separators| :: separators[i] == "\n" ==> !EndsWithCr(segments[i])
    ensures SplitLines(Join(segments, separators)) == segments
    ensures Separators(Join(segments, separators)) == separators
    decreases |segments|
  {
    if |segments| == 1 {
      NoNewlineSplitsToItself(segments[0]);
      NoNewlineHasNoSeparators(segments[0]);
    } else {
      var w, sep, tail := segments[0], separators[0], Join(segments[1..], separators[1..]);
      MixedRoundTrip(segments[1..], separators[1..]);
      var x := sep + tail;
      assert Join(segments, separators) == w + x;
      assert x[0] == sep[0];
      SplitLinesPrefix(w, x);
      SeparatorsPrefix(w, x);
      if sep == "\r\n" {
        assert IsCrLf(x, 0);
        assert x[2..] == tail;
      } else {
        assert x[1..] == tail;
      }
      assert SplitLines(x) == [""] + segments[1..];
      assert w + "" == w;
    }
  }

  lemma {:induction false} NoNewlineHasNoSeparators(w: string)
    requires '\n' !in w
    ensures Separators(w) == []
    decreases |w|
  {
    if |w| > 0 {
      assert '\n' !in w[1..] by {
        forall k | 0 <= k < |w[1..]| ensures w[1..][k] != '\n' { assert w[1..][k] == w[k + 1]; }
      }
      assert !IsCrLf(w, 0) by { if |w| > 1 { assert w[1] != '\n'; } }
      NoNewlineHasNoSeparators(w[1..]);
    }
  }

  /** A newline-free segment in front of text consumes no separator of its own. */
  lemma {:induction false} SeparatorsPrefix(w: string, x: string)
    requires '\n' !in w
    requires EndsWithCr(w) ==> !(|x| > 0 && x[0] == '\n')
    ensures Separators(w + x) == Separators(x)
    decreases |w|
  {
    if |w| == 0 {
      assert w + x == x;
    } else {
      var t := w + x;
      assert t[1..] == w[1..] + x;
      assert t[0] == w[0];
      assert !IsCrLf(t, 0) by {
        if |w| == 1 { assert t[1..] == x; } else { assert t[1] == w[1]; }
      }
      assert '\n' !in w[1..] by {
        forall k | 0 <= k < |w[1..]| ensures w[1..][k] != '\n' { assert w[1..][k] == w[k + 1]; }
      }
      assert EndsWithCr(w[1..]) ==> EndsWithCr(w);
      SeparatorsPrefix(w[1..], x);
    }
  }

  /** Number of occurrences of `c` in `s`. */
  function Count(c: char, s: string): nat
  {
    if |s| == 0 then 0 else (if s[0] == c then 1 else 0) + Count(c, s[1..])
  }

  lemma {:induction false} CountConcat(c: char, a: string, b: string)
    ensures Count(c, a + b) == Count(c, a) + Count(c, b)
    decreases |a|
  {
    if |a| == 0 {
      assert a + b == b;
    } else {
      assert (a + b)[1..] == a[1..] + b;
      CountConcat(c, a[1..], b);
    }
  }

  lemma {:induction false} CountAbsent(c: char, s: string)
    requires c !in s
    ensures Count(c, s) == 0
    decreases |s|
  {
    if |s| > 0 {
      assert s[1..] == s[1..] && forall k | 0 <= k < |s[1..]| :: s[1..][k] == s[k + 1];
      CountAbsent(c, s[1..]);
    }
  }

  /** Every line of a block ends with exactly one terminator, and nothing else in it is a line feed. */
  lemma {:induction false} BlockLineFeeds(prefix: string, lines: seq<string>)
    requires '\n' !in prefix
    requires forall i | 0 <= i < |lines| :: '\n' !in lines[i]
    ensures Count('\n', Block(prefix, lines)) == |lines|
    decreases |lines|
  {
    if |lines| > 0 {
      var init, last := lines[..|lines| - 1], lines[|lines| - 1];
      BlockLineFeeds(prefix, init);
      CountConcat('\n', Block(prefix, init), Line(prefix, last));
      CountConcat('\n', prefix + last, NL);
      CountConcat('\n', prefix, last);
      CountAbsent('\n', prefix);
      CountAbsent('\n', last);
    }
  }

  /** Each separator `SplitLines` consumes holds exactly one line feed, and segments hold none. */
  lemma {:induction false} SeparatorsCountLineFeeds(t: string)
    ensures |Separators(t)| == Count('\n', t)
    decreases |t|
  {
    if |t| == 0 {
    } else if IsCrLf(t, 0) {
      SeparatorsCountLineFeeds(t[2..]);
      assert t[1..][1..] == t[2..];
    } else {
      SeparatorsCountLineFeeds(t[1..]);
    }
  }

  /** A body written with a newline-free prefix holds one more line feed than the text it came from. */
  lemma BodyLineFeeds(prefix: string, t: string)
    requires '\n' !in prefix
    ensures Count('\n', Block(prefix, SplitLines(t))) == Count('\n', t) + 1
  {
    BlockLineFeeds(prefix, SplitLines(t));
    SeparatorsCountLineFeeds(t);
  }

  /** An empty body is one line holding only the prefix, not zero lines. */
  lemma EmptyBodyIsOneLine(prefix: string)
    ensures Block(prefix, SplitLines("")) == prefix + NL
  {
  }

  /** A lone '\r' is not a line break: "a\r\nb\nc\rd" has three segments, not four. */
  lemma LoneCarriageReturnIsNotABreak()
    ensures SplitLines("a\r\nb\nc\rd") == ["a", "b", "c\rd"]
    ensures SplitLines("") == [""]
  {
    NoNewlineSplitsToItself("c\rd");
    assert "\nc\rd"[1..] == "c\rd";
    assert SplitLines("\nc\rd") == ["", "c\rd"];
    assert "b\nc\rd"[1..] == "\nc\rd" && !IsCrLf("b\nc\rd", 0);
    assert ['b'] + "" == "b";
    assert SplitLines("b\nc\rd") == ["b", "c\rd"];
    assert "\r\nb\nc\rd"[2..] == "b\nc\rd";
    assert SplitLines("\r\nb\nc\rd") == ["", "b", "c\rd"];
    assert "a\r\nb\nc\rd"[1..] == "\r\nb\nc\rd" && !IsCrLf("a\r\nb\nc\rd", 0);
    assert ['a'] + "" == "a";
  }
}
