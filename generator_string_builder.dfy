/**
 GeneratorStringBuilder: an indentation-aware text builder for emitting C#
 source. The builder holds a character buffer, an indent depth that never
 goes below zero and a fixed number of spaces per level. Every operation
 appends to the buffer in place; `Clear` empties it and resets the depth.

 The callback that `Indent(action)` runs is modelled as a list of `Op`
 commands, which the builder interprets with its own methods. The functions
 `Step` and `Exec` give, for a value `State(buf, depth)`, the state those
 commands lead to; the class's methods are proved against them.
 */
module StringBuilders {
  import opened TextLines

  /** Default number of spaces per indentation level. */
  const DefaultPadding: nat := 4

  /** The spaces per level: the constructor argument when positive, the default otherwise. */
  function PaddingWidth(paddingChars: int): (r: nat)
    ensures r > 0
    ensures paddingChars > 0 ==> r == paddingChars
    ensures paddingChars <= 0 ==> r == DefaultPadding
  {
    if paddingChars > 0 then paddingChars else DefaultPadding
  }

  /** The `IndentAmount` setter: any value at or below zero is stored as zero. */
  function ClampDepth(value: int): (r: nat)
    ensures value >= 0 ==> r == value
    ensures value < 0 ==> r == 0
  {
    if value <= 0 then 0 else value
  }

  /** Decrementing at depth zero leaves the depth at zero; otherwise it goes down by one. */
  lemma DecrementClamps(depth: nat)
    ensures ClampDepth(depth - 1) == if depth == 0 then 0 else depth - 1
    ensures ClampDepth(ClampDepth(depth + 1) - 1) == depth
  {
  }

  /** What a callback passed to `Indent` may do to the builder. */
  datatype Op =
    | Append(text: string)       // Append(string)
    | AppendLine(text: string)   // AppendLine(string)
    | EmptyLine                  // AppendLine()
    | AppendBody(text: string)   // AppendBody(string)
    | Indent(body: seq<Op>)      // Indent(g => body)
    | Clear                      // Clear()

  /** The builder's mutable state, as a value. */
  datatype State = State(buf: string, depth: nat)

  /** The state after one command, at `padding` spaces per level. */
  function Step(padding: nat, s: State, op: Op): (r: State)
    ensures op.Clear? ==> r == State("", 0)
    ensures !op.Indent? && !op.Clear? ==> r.depth == s.depth && s.buf <= r.buf
    ensures op.AppendLine? ==> |r.buf| == |s.buf| + s.depth * padding + |op.text| + |NL|
    ensures op.AppendBody? ==> |r.buf| > |s.buf| + s.depth * padding
    decreases op
  {
    match op
    case Append(text) => State(s.buf + text, s.depth)
    case AppendLine(text) => State(s.buf + Line(Indentation(s.depth, padding), text), s.depth)
    case EmptyLine => State(s.buf + NL, s.depth)
    case AppendBody(text) => State(s.buf + Block(Indentation(s.depth, padding), SplitLines(text)), s.depth)
    case Indent(body) =>
      var inner := Exec(padding, State(s.buf, s.depth + 1), body);
      State(inner.buf, ClampDepth(inner.depth - 1))
    case Clear => State("", 0)
  }

  /** The state after running the commands in order. */
  function Exec(padding: nat, s: State, ops: seq<Op>): (r: State)
    ensures |ops| == 0 ==> r == s
    ensures |ops| > 0 && ops[|ops| - 1].Clear? ==> r == State("", 0)
    decreases ops
  {
    if |ops| == 0 then s
    else Step(padding, Exec(padding, s, ops[..|ops| - 1]), ops[|ops| - 1])
  }

  lemma {:induction false} ExecConcat(padding: nat, s: State, a: seq<Op>, b: seq<Op>)
    ensures Exec(padding, s, a + b) == Exec(padding, Exec(padding, s, a), b)
    decreases |b|
  {
    if |b| == 0 {
      assert a + b == a;
    } else {
      var b' := b[..|b| - 1];
      assert (a + b)[..|a + b| - 1] == a + b';
      assert (a + b)[|a + b| - 1] == b[|b| - 1];
      ExecConcat(padding, s, a, b');
    }
  }

  /** The command, and every command nested in it, leaves out `Clear`. */
  predicate ClearFree(op: Op)
  {
    match op
    case Clear => false
    case Indent(body) => forall i | 0 <= i < |body| :: ClearFree(body[i])
    case _ => true
  }

  /** A command without `Clear` ends at the depth it started at: `Indent` restores the depth. */
  lemma {:induction false} StepBalanced(padding: nat, s: State, op: Op)
    requires ClearFree(op)
    ensures Step(padding, s, op).depth == s.depth
    decreases op
  {
    match op
    case Indent(body) =>
      ExecBalanced(padding, State(s.buf, s.depth + 1), body);
    case _ =>
  }

  /** Commands without `Clear` end at the depth they started at. */
  lemma {:induction false} ExecBalanced(padding: nat, s: State, ops: seq<Op>)
    requires forall i | 0 <= i < |ops| :: ClearFree(ops[i])
    ensures Exec(padding, s, ops).depth == s.depth
    decreases ops
  {
    if |ops| > 0 {
      ExecBalanced(padding, s, ops[..|ops| - 1]);
      StepBalanced(padding, Exec(padding, s, ops[..|ops| - 1]), ops[|ops| - 1]);
    }
  }

  /** A command without `Clear` only appends: what was in the buffer stays in front. */
  lemma {:induction false} StepExtends(padding: nat, s: State, op: Op)
    requires ClearFree(op)
    ensures s.buf <= Step(padding, s, op).buf
    decreases op
  {
    match op
    case Indent(body) =>
      ExecExtends(padding, State(s.buf, s.depth + 1), body);
    case _ =>
  }

  /** Commands without `Clear` only append to the buffer. */
  lemma {:induction false} ExecExtends(padding: nat, s: State, ops: seq<Op>)
    requires forall i | 0 <= i < |ops| :: ClearFree(ops[i])
    ensures s.buf <= Exec(padding, s, ops).buf
    decreases ops
  {
    if |ops| > 0 {
      var mid := Exec(padding, s, ops[..|ops| - 1]);
      ExecExtends(padding, s, ops[..|ops| - 1]);
      StepExtends(padding, mid, ops[|ops| - 1]);
    }
  }

  /**
   `Indent` has no try/finally and decrements through the clamping setter:
   a callback that clears the builder leaves the depth at zero, not at the
   depth before the call.
   */
  lemma IndentedClearEndsAtZero(padding: nat, s: State)
    ensures Step(padding, s, Indent([Clear])) == State("", 0)
  {
  }

  /** Writing a line inside one `Indent` writes it one level deeper and restores the depth. */
  lemma IndentedLine(padding: nat, s: State, text: string)
    ensures Step(padding, s, Indent([AppendLine(text)]))
         == State(s.buf + Line(Indentation(s.depth + 1, padding), text), s.depth)
  {
    var s' := State(s.buf, s.depth + 1);
    assert [AppendLine(text)][..0] == [];
    assert Exec(padding, s', [AppendLine(text)]) == Step(padding, s', AppendLine(text));
  }

  /** Writing a body inside one `Indent` writes every line one level deeper and restores the depth. */
  lemma IndentedBody(padding: nat, s: State, text: string)
    ensures Step(padding, s, Indent([AppendBody(text)]))
         == State(s.buf + Block(Indentation(s.depth + 1, padding), SplitLines(text)), s.depth)
  {
    var s' := State(s.buf, s.depth + 1);
    assert [AppendBody(text)][..0] == [];
    assert Exec(padding, s', [AppendBody(text)]) == Step(padding, s', AppendBody(text));
  }

  /** Two nested `Indent`s write the line two levels deeper: 8 spaces at the default padding, from depth 0. */
  lemma NestedIndentedLine(padding: nat, s: State, text: string)
    ensures Step(padding, s, Indent([Indent([AppendLine(text)])]))
         == State(s.buf + Indentation(s.depth + 2, padding) + text + NL, s.depth)
    ensures padding == DefaultPadding && s.depth == 0 ==>
              Step(padding, s, Indent([Indent([AppendLine(text)])])).buf == s.buf + "        " + text + NL
  {
    var inner, s' := Indent([AppendLine(text)]), State(s.buf, s.depth + 1);
    assert [inner][..0] == [];
    assert Exec(padding, s', [inner]) == Step(padding, s', inner);
    IndentedLine(padding, s', text);
  }

  lemma ExecPair(padding: nat, s: State, a: Op, b: Op)
    ensures Exec(padding, s, [a, b]) == Step(padding, Step(padding, s, a), b)
  {
    assert [a, b][..1] == [a];
    assert [a][..0] == [];
    assert Exec(padding, s, [a]) == Step(padding, s, a);
  }

  /** A scope holding a line and a nested scope with a line: one level, then two levels deeper. */
  lemma LineThenNestedLine(padding: nat, s: State, x: string, y: string)
    ensures Step(padding, s, Indent([AppendLine(x), Indent([AppendLine(y)])]))
         == State(s.buf + Line(Indentation(s.depth + 1, padding), x)
                        + Line(Indentation(s.depth + 2, padding), y), s.depth)
  {
    var inner := State(s.buf, s.depth + 1);
    ExecPair(padding, inner, AppendLine(x), Indent([AppendLine(y)]));
    IndentedLine(padding, Step(padding, inner, AppendLine(x)), y);
  }

  /**
   Two scoped indents in a row at the default padding, the second nesting a
   third: each line gets four spaces per open scope, and the depth is back
   at zero.
   */
  lemma IndentedScenario(a: string, b: string, c: string)
    ensures Exec(DefaultPadding, State("", 0),
                 [Indent([AppendLine(a)]), Indent([AppendLine(b), Indent([AppendLine(c)])])])
         == State("    " + a + "\n" + "    " + b + "\n" + "        " + c + "\n", 0)
  {
    var s0 := State("", 0);
    var first := Indent([AppendLine(a)]);
    var second := Indent([AppendLine(b), Indent([AppendLine(c)])]);
    ExecPair(DefaultPadding, s0, first, second);
    IndentedLine(DefaultPadding, s0, a);
    var s1 := Step(DefaultPadding, s0, first);
    assert Indentation(1, DefaultPadding) == "    ";
    assert Indentation(2, DefaultPadding) == "        ";
    assert s1 == State("    " + a + "\n", 0);
    LineThenNestedLine(DefaultPadding, s1, b, c);
  }

  /** `AppendUsings("System", "System.Text")` at depth zero: one line per name, in order. */
  lemma UsingsScenario()
    ensures Block(Indentation(0, DefaultPadding), UsingLines(["System", "System.Text"]))
         == "using System;\nusing System.Text;\n"
  {
  }

  /** `"using " + name + ";"`, the line `AppendUsings(string)` writes. */
  function UsingLine(name: string): (r: string)
    ensures |r| == |name| + 7
    ensures r[..6] == "using " && r[|r| - 1] == ';'
  {
    "using " + name + ";"
  }

  function UsingLines(names: seq<string>): (r: seq<string>)
    ensures |r| == |names|
    ensures forall i | 0 <= i < |names| :: r[i] == UsingLine(names[i])
  {
    seq(|names|, i requires 0 <= i < |names| => UsingLine(names[i]))
  }

  /** Distinct names give distinct using lines. */
  lemma UsingLineInjective(a: string, b: string)
    requires UsingLine(a) == UsingLine(b)
    ensures a == b
  {
    var la, lb := UsingLine(a), UsingLine(b);
    assert a == la[6..|la| - 1];
    assert b == lb[6..|lb| - 1];
  }

  predicate Distinct<T(==)>(s: seq<T>)
  {
    forall i, j | 0 <= i < j < |s| :: s[i] != s[j]
  }

  /** Every name drawn from every source, as `SelectMany` sees them. */
  function AllNames(sources: seq<seq<string>>): (r: set<string>)
    ensures forall k, i | 0 <= k < |sources| && 0 <= i < |sources[k]| :: sources[k][i] in r
    ensures forall n | n in r :: exists k | 0 <= k < |sources| :: n in sources[k]
  {
    set k, i | 0 <= k < |sources| && 0 <= i < |sources[k]| :: sources[k][i]
  }

  /** An order `HashSet<string>.ToArray()` may produce: each distinct name exactly once. */
  ghost predicate IsEnumeration(order: seq<string>, names: set<string>)
  {
    Distinct(order) && forall n :: n in order <==> n in names
  }

  /** In an enumeration every name is written exactly once and every line written is a name's using line. */
  lemma EnumerationUsingLines(order: seq<string>, names: set<string>)
    requires IsEnumeration(order, names)
    ensures Distinct(UsingLines(order))
    ensures forall n | n in names :: UsingLine(n) in UsingLines(order)
    ensures forall i | 0 <= i < |order| :: order[i] in names
  {
    var lines := UsingLines(order);
    forall i, j | 0 <= i < j < |lines| ensures lines[i] != lines[j] {
      if lines[i] == lines[j] { UsingLineInjective(order[i], order[j]); }
    }
    forall n | n in names ensures UsingLine(n) in lines {
      var i :| 0 <= i < |order| && order[i] == n;
      assert lines[i] == UsingLine(n);
    }
  }

  /**
   The builder. `padding` is fixed at construction; every method below
   appends to `buf` or resets it, and `depth` is only ever written through
   the clamping setter.
   */
  class GeneratorStringBuilder {
    const padding: nat
    var buf: string
    var depth: nat

    function Snapshot(): State
      reads this
    {
      State(buf, depth)
    }

    /** `new GeneratorStringBuilder(paddingChars)`. */
    constructor (paddingChars: int)
      ensures padding == PaddingWidth(paddingChars) && padding > 0
      ensures buf == "" && depth == 0
    {
      padding := PaddingWidth(paddingChars);
      buf := "";
      depth := 0;
    }

    /** The `IndentAmount` setter. */
    method SetIndentAmount(value: int)
      modifies this
      ensures depth == ClampDepth(value) && buf == old(buf)
    {
      depth := ClampDepth(value);
    }

    /** `IndentString` at the current depth: the prefix of the next line. */
    function Prefix(): (r: string)
      reads this
      ensures |r| == depth * padding
    {
      Indentation(depth, padding)
    }

    /** `Append(string)`: the text goes in verbatim, with no indentation. */
    method Append(text: string)
      modifies this
      ensures buf == old(buf) + text && depth == old(depth)
    {
      buf := buf + text;
    }

    /** `Append(char)`. */
    method AppendChar(c: char)
      modifies this
      ensures buf == old(buf) + [c] && depth == old(depth)
    {
      Append([c]);
    }

    /** `AppendLine()`: a bare terminator, with no indentation. */
    method AppendEmptyLine()
      modifies this
      ensures buf == old(buf) + NL && depth == old(depth)
    {
      buf := buf + NL;
    }

    /** `AppendLine(string)`: the prefix, the text verbatim (embedded breaks are not indented), a terminator. */
    method AppendLine(text: string)
      modifies this
      ensures buf == old(buf) + Indentation(old(depth), padding) + text + NL
      ensures depth == old(depth)
    {
      buf := buf + Prefix() + text + NL;
    }

    /** `AppendBody(string)`: every segment of the split text as its own indented line. */
    method AppendBody(text: string)
      modifies this
      ensures buf == old(buf) + Block(Indentation(old(depth), padding), SplitLines(text))
      ensures depth == old(depth)
    {
      var lines := SplitLines(text);
      var i := 0;
      while i < |lines|
        invariant 0 <= i <= |lines|
        invariant depth == old(depth)
        invariant buf == old(buf) + Block(Prefix(), lines[..i])
      {
        assert lines[..i + 1][..i] == lines[..i];
        buf := buf + Prefix() + lines[i] + NL;
        i := i + 1;
      }
      assert lines[..|lines|] == lines;
    }

    /** `Clear()`: empties the buffer and resets the depth; the padding is a constant. */
    method Clear()
      modifies this
      ensures buf == "" && depth == 0
    {
      buf := "";
      SetIndentAmount(0);
    }

    /** `ToString()`. */
    function ToString(): (r: string)
      reads this
      ensures r == buf
    {
      buf
    }

    /** `ToStringAndClear()`: returns the text so far and leaves the builder cleared. */
    method ToStringAndClear() returns (result: string)
      modifies this
      ensures result == old(buf)
      ensures buf == "" && depth == 0
    {
      result := ToString();
      Clear();
    }

    /** Runs one command of an indented callback. */
    method Run(op: Op)
      modifies this
      ensures Snapshot() == Step(padding, old(Snapshot()), op)
      decreases op, 0
    {
      match op
      case Append(text) => Append(text);
      case AppendLine(text) => AppendLine(text);
      case EmptyLine => AppendEmptyLine();
      case AppendBody(text) => AppendBody(text);
      case Indent(body) => Indent(body);
      case Clear => Clear();
    }

    /** Runs the commands of an indented callback in order. */
    method RunAll(ops: seq<Op>)
      modifies this
      ensures Snapshot() == Exec(padding, old(Snapshot()), ops)
      decreases ops, 1
    {
      var i := 0;
      while i < |ops|
        invariant 0 <= i <= |ops|
        invariant Snapshot() == Exec(padding, old(Snapshot()), ops[..i])
      {
        assert ops[..i + 1][..i] == ops[..i];
        Run(ops[i]);
        i := i + 1;
      }
      assert ops[..|ops|] == ops;
    }

    /**
     `Indent(action)`: one level deeper while `body` runs, then one level back
     through the clamping setter. Without a `Clear` in `body` the depth ends
     where it started.
     */
    method Indent(body: seq<Op>)
      modifies this
      ensures Snapshot() == Step(padding, old(Snapshot()), Op.Indent(body))
      ensures ClearFree(Op.Indent(body)) ==> depth == old(depth) && old(buf) <= buf
      decreases body, 2
    {
      SetIndentAmount(depth + 1);
      RunAll(body);
      SetIndentAmount(depth - 1);
      if ClearFree(Op.Indent(body)) {
        StepBalanced(padding, old(Snapshot()), Op.Indent(body));
        StepExtends(padding, old(Snapshot()), Op.Indent(body));
      }
    }

    /** `AppendLineIndented(text)`: `AppendLine` one level deeper, depth restored. */
    method AppendLineIndented(text: string)
      modifies this
      ensures buf == old(buf) + Indentation(old(depth) + 1, padding) + text + NL
      ensures depth == old(depth)
    {
      Indent([Op.AppendLine(text)]);
      IndentedLine(padding, old(Snapshot()), text);
    }

    /** `AppendBodyIndented(text)`: `AppendBody` one level deeper, depth restored. */
    method AppendBodyIndented(text: string)
      modifies this
      ensures buf == old(buf) + Block(Indentation(old(depth) + 1, padding), SplitLines(text))
      ensures depth == old(depth)
    {
      Indent([Op.AppendBody(text)]);
      IndentedBody(padding, old(Snapshot()), text);
    }

    /** `AppendUsings(string)`. */
    method AppendUsing(name: string)
      modifies this
      ensures buf == old(buf) + Line(Indentation(old(depth), padding), UsingLine(name))
      ensures depth == old(depth)
    {
      AppendLine(UsingLine(name));
    }

    /** `AppendUsings(params string[])`: one using line per name, in the given order, duplicates kept. */
    method AppendUsings(names: seq<string>)
      modifies this
      ensures buf == old(buf) + Block(Indentation(old(depth), padding), UsingLines(names))
      ensures depth == old(depth)
    {
      ghost var prefix := Prefix();
      var i := 0;
      while i < |names|
        invariant 0 <= i <= |names|
        invariant depth == old(depth) && Prefix() == prefix
        invariant buf == old(buf) + Block(prefix, UsingLines(names[..i]))
      {
        ghost var lines := UsingLines(names[..i + 1]);
        assert lines[..i] == UsingLines(names[..i]) && lines[i] == UsingLine(names[i]);
        assert Block(prefix, lines) == Block(prefix, UsingLines(names[..i])) + Line(prefix, UsingLine(names[i]));
        AppendUsing(names[i]);
        i := i + 1;
      }
      assert names[..|names|] == names;
    }

    /**
     `AppendMultipleUsings(params Func<IEnumerable<string>>[])`: the names of
     all sources go through a `HashSet`, so each distinct name is written once,
     in an order the model leaves open.
     */
    method AppendMultipleUsings(sources: seq<seq<string>>)
      modifies this
      ensures depth == old(depth)
      ensures exists order :: IsEnumeration(order, AllNames(sources))
                && buf == old(buf) + Block(Indentation(old(depth), padding), UsingLines(order))
    {
      var names := AllNames(sources);
      var rest := names;
      var data: seq<string> := [];
      while rest != {}
        invariant Distinct(data)
        invariant forall n :: n in names <==> n in data || n in rest
        invariant forall i | 0 <= i < |data| :: data[i] !in rest
        decreases rest
      {
        var n :| n in rest;
        data := data + [n];
        rest := rest - {n};
      }
      AppendUsings(data);
      assert IsEnumeration(data, names);
    }

    /** `AppendComment(comment)`: an inline comment, no terminator. */
    method AppendComment(comment: string)
      modifies this
      ensures buf == old(buf) + " // " + comment && depth == old(depth)
    {
      Append(" // " + comment);
    }

    /** `AppendLineComment(comment)`. */
    method AppendLineComment(comment: string)
      modifies this
      ensures buf == old(buf) + Line(Indentation(old(depth), padding), "// " + comment)
      ensures depth == old(depth)
    {
      AppendLine("// " + comment);
    }

    /** `AppendAutoGenerated()`. */
    method AppendAutoGenerated()
      modifies this
      ensures buf == old(buf) + Line(Indentation(old(depth), padding), "// <auto-generated />")
      ensures depth == old(depth)
    {
      AppendLineComment("<auto-generated />");
    }

    /** `AppendNamespace(name)`: a file-scoped namespace declaration. */
    method AppendNamespace(name: string)
      modifies this
      ensures buf == old(buf) + Line(Indentation(old(depth), padding), "namespace " + name + ";")
      ensures depth == old(depth)
    {
      AppendLine("namespace " + name + ";");
    }

    /** `AppendNullableEnable()`. */
    method AppendNullableEnable()
      modifies this
      ensures buf == old(buf) + Line(Indentation(old(depth), padding), "#nullable enable")
      ensures depth == old(depth)
    {
      AppendLine("#nullable enable");
    }
  }
}
