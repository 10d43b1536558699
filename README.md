# GeneratorStringBuilder and StackBackports, modelled in Dafny

This project models two parts of the CodeOfChaos.GeneratorTools library.

**`GeneratorStringBuilder`** is a fluent text builder that source generators use to emit C#. It holds three things:

- a character buffer;
- an indent depth, which is written only through a setter that stores any value at or below zero as zero;
- a fixed number of spaces per indentation level. A non-positive constructor argument becomes 4.

Every operation appends to the buffer in place. `AppendLine` writes the indentation prefix once. `AppendBody` splits its text into lines and prefixes each one. `Indent(action)` runs a callback one level deeper and then steps back down. `Clear` empties the buffer and resets the depth.

**`StackBackports`** provides `TryPop` and `TryPeek` for `Stack<T>`. Both report success as "the value obtained is not null".

Files:

- `text_lines.dfy`, module `TextLines`, holds the text primitives:
  - the line terminator `NL`;
  - the indentation prefix;
  - the line split `AppendBody` uses: `SplitLines`, with `Separators` for the separators it consumes;
  - the text a run of prefixed lines produces (`Block`).
- `generator_string_builder.dfy`, module `StringBuilders`, holds the builder:
  - `Op` is a command datatype that stands for the callback passed to `Indent`;
  - `Step` and `Exec` are the value-level meaning of commands over `State(buf, depth)`;
  - lemmas about `Step` and `Exec`;
  - the class `GeneratorStringBuilder`, with `buf: string`, `depth: nat` and the constant `padding`. Each method's `ensures` states the whole new state in terms of the old one. `Run` and `RunAll` interpret the commands by calling the class's own methods, and they are proved against `Step` and `Exec`.
- `stack_backports.dfy`, module `StackBackports`:
  - a `Stack<T>` class whose `items: seq<Option<T>>` has the top last, with `None` standing for `null`;
  - `TryPeek` as a function;
  - `TryPop` as a method that changes the caller's stack.

Behaviour of the code that the model keeps:

- `AppendBody` splits only on `"\r\n"` and `"\n"`. A lone `'\r'` stays inside its line, so `"a\r\nb\nc\rd"` gives three lines, not four (`LoneCarriageReturnIsNotABreak`).
- `Indent(action)` has no try/finally. Its decrement goes through the clamping setter, so a callback that calls `Clear` leaves the depth at 0 rather than restoring it (`IndentedClearEndsAtZero`).
- `Append` writes its text verbatim, with no indentation.
- Some tests call `Indent()`, `UnIndent()`, `IndentLine` and `UnIndentLine`. The library source does not define these, and they are not modelled.
- Each using line is `"using "`, the name and `";"`, starting at the current indentation: `"using System;" NL "using System.Text;" NL` at depth 0 (`UsingsScenario`).

## Model

| member | source | states |
|---|---|---|
| `TextLines.Indentation` | src/CodeOfChaos.GeneratorTools/StringBuilders/GeneratorStringBuilder.cs:59 | the prefix at depth d is exactly d*padding characters, all spaces |
| `TextLines.IndentationNests` | src/CodeOfChaos.GeneratorTools/StringBuilders/GeneratorStringBuilder.cs:59-65 | one level deeper is the current prefix followed by one level of spaces |
| `TextLines.Line` | src/CodeOfChaos.GeneratorTools/StringBuilders/GeneratorStringBuilder.cs:53-56 | a line is the prefix, the text and one terminator: its length is their sum and it ends in '\n' |
| `TextLines.LineParts` | src/CodeOfChaos.GeneratorTools/StringBuilders/GeneratorStringBuilder.cs:53-56 | a line splits back into exactly the prefix, the text as given and the terminator |
| `TextLines.Block` | src/CodeOfChaos.GeneratorTools/StringBuilders/GeneratorStringBuilder.cs:71-73 | the text added for n lines has length n*(prefix + terminator) plus the lengths of the lines |
| `TextLines.BlockAppend` | src/CodeOfChaos.GeneratorTools/StringBuilders/GeneratorStringBuilder.cs:71-73 | writing lines a then b gives the block of a followed by the block of b, so line order is kept |
| `TextLines.SplitLines` | src/CodeOfChaos.GeneratorTools/StringBuilders/GeneratorStringBuilder.cs:69 | the split always yields at least one segment, and no segment holds a '\n' |
| `TextLines.Separators` | src/CodeOfChaos.GeneratorTools/StringBuilders/GeneratorStringBuilder.cs:69 | there is one separator fewer than segments, and each separator is "\r\n" or "\n" |
| `TextLines.SplitLinesJoin` | src/CodeOfChaos.GeneratorTools/StringBuilders/GeneratorStringBuilder.cs:69 | joining the segments with the separators found gives back the original text |
| `TextLines.JoinWithSplitLines` | src/CodeOfChaos.GeneratorTools/StringBuilders/GeneratorStringBuilder.cs:69 | segments free of '\n', joined with "\r\n" (or with "\n" when no inner segment ends in '\r'), split back into the same segments, empty ones included |
| `TextLines.MixedRoundTrip` | src/CodeOfChaos.GeneratorTools/StringBuilders/GeneratorStringBuilder.cs:69 | newline-free segments joined with any mix of "\r\n" and "\n" (no "\n" after a segment ending in '\r') split back into the same segments and the same separators, so "\r\n" is always one separator |
| `TextLines.NoNewlineSplitsToItself` | src/CodeOfChaos.GeneratorTools/StringBuilders/GeneratorStringBuilder.cs:69 | text with no '\n' is one segment, whatever '\r' it holds |
| `TextLines.LoneCarriageReturnIsNotABreak` | src/CodeOfChaos.GeneratorTools/StringBuilders/GeneratorStringBuilder.cs:69 | "a\r\nb\nc\rd" splits into "a", "b", "c\rd", and "" splits into one empty segment |
| `TextLines.BlockLineFeeds` | src/CodeOfChaos.GeneratorTools/StringBuilders/GeneratorStringBuilder.cs:71-73 | a block of n newline-free lines holds exactly n line feeds |
| `TextLines.SeparatorsCountLineFeeds` | src/CodeOfChaos.GeneratorTools/StringBuilders/GeneratorStringBuilder.cs:69 | the number of separators equals the number of '\n' in the text, so "\r\n" counts once |
| `TextLines.BodyLineFeeds` | src/CodeOfChaos.GeneratorTools/StringBuilders/GeneratorStringBuilder.cs:68-74 | the body written for text t holds one more line terminator than t has line breaks |
| `TextLines.EmptyBodyIsOneLine` | src/CodeOfChaos.GeneratorTools/StringBuilders/GeneratorStringBuilder.cs:68-74 | an empty body adds the prefix and one terminator, not nothing |
| `StringBuilders.PaddingWidth` | src/CodeOfChaos.GeneratorTools/StringBuilders/GeneratorStringBuilder.cs:10-11 | the padding is the argument when it is positive, otherwise 4; it is never zero or negative |
| `StringBuilders.ClampDepth` | src/CodeOfChaos.GeneratorTools/StringBuilders/GeneratorStringBuilder.cs:14-17 | a value that is not negative is stored as is; a negative value is stored as 0 |
| `StringBuilders.Step` | src/CodeOfChaos.GeneratorTools/StringBuilders/GeneratorStringBuilder.cs:47-75 | Clear gives an empty buffer at depth 0; every command other than a scope or Clear keeps the depth and only appends; a line adds depth*padding + text + terminator characters, and a body always writes at least one line, so it adds more than one prefix |
| `StringBuilders.Exec` | src/CodeOfChaos.GeneratorTools/StringBuilders/GeneratorStringBuilder.cs:61-65 | no commands leave the state as it is, and a callback ending in Clear leaves an empty buffer at depth 0 whatever came before |
| `StringBuilders.DecrementClamps` | src/CodeOfChaos.GeneratorTools/StringBuilders/GeneratorStringBuilder.cs:14-17 | decrementing at depth 0 stays at 0, and setting depth+1 then setting one less, both through the setter, restores any depth |
| `StringBuilders.ExecConcat` | src/CodeOfChaos.GeneratorTools/StringBuilders/GeneratorStringBuilder.cs:61-65 | running a then b is running b from the state a leaves |
| `StringBuilders.StepBalanced` | src/CodeOfChaos.GeneratorTools/StringBuilders/GeneratorStringBuilder.cs:61-65 | a command with no Clear anywhere in it, a scoped Indent included, ends at the depth it started at |
| `StringBuilders.ExecBalanced` | src/CodeOfChaos.GeneratorTools/StringBuilders/GeneratorStringBuilder.cs:61-65 | a sequence of commands with no Clear ends at the depth it started at, however deeply scopes nest |
| `StringBuilders.StepExtends` | src/CodeOfChaos.GeneratorTools/StringBuilders/GeneratorStringBuilder.cs:47-75 | a command with no Clear only appends: the old buffer is a prefix of the new one |
| `StringBuilders.ExecExtends` | src/CodeOfChaos.GeneratorTools/StringBuilders/GeneratorStringBuilder.cs:47-75 | a sequence of commands with no Clear only appends to the buffer |
| `StringBuilders.IndentedClearEndsAtZero` | src/CodeOfChaos.GeneratorTools/StringBuilders/GeneratorStringBuilder.cs:61-65 | Indent around Clear leaves an empty buffer at depth 0 from any depth, so the depth is not restored |
| `StringBuilders.IndentedLine` | src/CodeOfChaos.GeneratorTools/StringBuilders/GeneratorStringBuilder.cs:66 | a line written inside Indent gets the prefix of depth+1, and the depth is restored |
| `StringBuilders.IndentedBody` | src/CodeOfChaos.GeneratorTools/StringBuilders/GeneratorStringBuilder.cs:75 | a body written inside Indent gets the prefix of depth+1 on every line, and the depth is restored |
| `StringBuilders.NestedIndentedLine` | src/CodeOfChaos.GeneratorTools/StringBuilders/GeneratorStringBuilder.cs:61-66 | two nested Indents give the prefix of depth+2, which is 8 spaces at the default padding from depth 0 |
| `StringBuilders.LineThenNestedLine` | src/CodeOfChaos.GeneratorTools/StringBuilders/GeneratorStringBuilder.cs:61-65 | inside one scope a line gets depth+1 and a nested scope's line gets depth+2, and the depth is restored |
| `StringBuilders.IndentedScenario` | tests/Tests.CodeOfChaos.GeneratorTools/StringBuilders/GeneratorStringBuilderTests.cs:171-178 | two scopes, the second nested: lines indented by 4, 4 and 8 spaces, ending back at depth 0 |
| `StringBuilders.UsingsScenario` | tests/Tests.CodeOfChaos.GeneratorTools/StringBuilders/GeneratorStringBuilderTests.cs:93-96 | the usings "System" and "System.Text" become two lines, in order |
| `StringBuilders.UsingLine` | src/CodeOfChaos.GeneratorTools/StringBuilders/GeneratorStringBuilder.cs:27 | the line is "using " then the name then ";", seven characters longer than the name |
| `StringBuilders.AllNames` | src/CodeOfChaos.GeneratorTools/StringBuilders/GeneratorStringBuilder.cs:33 | every name of every source is in the set, and every name in the set comes from some source |
| `StringBuilders.UsingLines` | src/CodeOfChaos.GeneratorTools/StringBuilders/GeneratorStringBuilder.cs:27-30 | one using line per name, position for position |
| `StringBuilders.UsingLineInjective` | src/CodeOfChaos.GeneratorTools/StringBuilders/GeneratorStringBuilder.cs:27 | different names give different using lines |
| `StringBuilders.EnumerationUsingLines` | src/CodeOfChaos.GeneratorTools/StringBuilders/GeneratorStringBuilder.cs:32-35 | when names are enumerated from a set, the using lines are pairwise distinct, every name has its line, and every line is a name's |
| `StringBuilders.GeneratorStringBuilder.constructor` | src/CodeOfChaos.GeneratorTools/StringBuilders/GeneratorStringBuilder.cs:10-13 | a new builder has a positive padding taken from the argument or 4, an empty buffer and depth 0 |
| `StringBuilders.GeneratorStringBuilder.SetIndentAmount` | src/CodeOfChaos.GeneratorTools/StringBuilders/GeneratorStringBuilder.cs:14-17 | the setter stores the clamped value and leaves the buffer alone |
| `StringBuilders.GeneratorStringBuilder.Prefix` | src/CodeOfChaos.GeneratorTools/StringBuilders/GeneratorStringBuilder.cs:59 | the current prefix has length depth*padding |
| `StringBuilders.GeneratorStringBuilder.Append` | src/CodeOfChaos.GeneratorTools/StringBuilders/GeneratorStringBuilder.cs:48 | the buffer gains the text verbatim, with no indentation; the depth is unchanged |
| `StringBuilders.GeneratorStringBuilder.AppendChar` | src/CodeOfChaos.GeneratorTools/StringBuilders/GeneratorStringBuilder.cs:47 | the buffer gains the one character; the depth is unchanged |
| `StringBuilders.GeneratorStringBuilder.AppendEmptyLine` | src/CodeOfChaos.GeneratorTools/StringBuilders/GeneratorStringBuilder.cs:52 | the buffer gains exactly one terminator, with no prefix |
| `StringBuilders.GeneratorStringBuilder.AppendLine` | src/CodeOfChaos.GeneratorTools/StringBuilders/GeneratorStringBuilder.cs:53-56 | the buffer gains depth*padding spaces, the text verbatim and one terminator; the depth is unchanged |
| `StringBuilders.GeneratorStringBuilder.AppendBody` | src/CodeOfChaos.GeneratorTools/StringBuilders/GeneratorStringBuilder.cs:68-74 | the buffer gains prefix + segment + terminator for every segment of the split, in order; the depth is unchanged |
| `StringBuilders.GeneratorStringBuilder.Clear` | src/CodeOfChaos.GeneratorTools/StringBuilders/GeneratorStringBuilder.cs:87-91 | the buffer is empty and the depth is 0; the padding is a constant and stays |
| `StringBuilders.GeneratorStringBuilder.ToString` | src/CodeOfChaos.GeneratorTools/StringBuilders/GeneratorStringBuilder.cs:79 | the result is the buffer; as a function it cannot change the builder |
| `StringBuilders.GeneratorStringBuilder.ToStringAndClear` | src/CodeOfChaos.GeneratorTools/StringBuilders/GeneratorStringBuilder.cs:81-85 | returns the buffer as it was before the call and leaves the builder empty at depth 0 |
| `StringBuilders.GeneratorStringBuilder.Run` | src/CodeOfChaos.GeneratorTools/StringBuilders/GeneratorStringBuilder.cs:61-65 | running one command of a callback moves the builder to the state Step gives |
| `StringBuilders.GeneratorStringBuilder.RunAll` | src/CodeOfChaos.GeneratorTools/StringBuilders/GeneratorStringBuilder.cs:61-65 | running a callback's commands in order moves the builder to the state Exec gives |
| `StringBuilders.GeneratorStringBuilder.Indent` | src/CodeOfChaos.GeneratorTools/StringBuilders/GeneratorStringBuilder.cs:61-65 | runs the body at depth+1 and then decrements through the clamp; with no Clear in the body, the depth is restored and the buffer only grows |
| `StringBuilders.GeneratorStringBuilder.AppendLineIndented` | src/CodeOfChaos.GeneratorTools/StringBuilders/GeneratorStringBuilder.cs:66 | is AppendLine with the prefix of depth+1, with the depth unchanged afterwards |
| `StringBuilders.GeneratorStringBuilder.AppendBodyIndented` | src/CodeOfChaos.GeneratorTools/StringBuilders/GeneratorStringBuilder.cs:75 | is AppendBody with the prefix of depth+1, with the depth unchanged afterwards |
| `StringBuilders.GeneratorStringBuilder.AppendUsing` | src/CodeOfChaos.GeneratorTools/StringBuilders/GeneratorStringBuilder.cs:27 | is AppendLine of "using name;" |
| `StringBuilders.GeneratorStringBuilder.AppendUsings` | src/CodeOfChaos.GeneratorTools/StringBuilders/GeneratorStringBuilder.cs:28-30 | adds one using line per name, in input order, duplicates included |
| `StringBuilders.GeneratorStringBuilder.AppendMultipleUsings` | src/CodeOfChaos.GeneratorTools/StringBuilders/GeneratorStringBuilder.cs:32-35 | for some order listing each distinct name of all sources exactly once, adds that order's using lines |
| `StringBuilders.GeneratorStringBuilder.AppendComment` | src/CodeOfChaos.GeneratorTools/StringBuilders/GeneratorStringBuilder.cs:38 | adds " // " and the comment, with no prefix and no terminator |
| `StringBuilders.GeneratorStringBuilder.AppendLineComment` | src/CodeOfChaos.GeneratorTools/StringBuilders/GeneratorStringBuilder.cs:39 | is AppendLine of "// " followed by the comment |
| `StringBuilders.GeneratorStringBuilder.AppendAutoGenerated` | src/CodeOfChaos.GeneratorTools/StringBuilders/GeneratorStringBuilder.cs:37 | is AppendLine of "// <auto-generated />" |
| `StringBuilders.GeneratorStringBuilder.AppendNamespace` | src/CodeOfChaos.GeneratorTools/StringBuilders/GeneratorStringBuilder.cs:40 | is AppendLine of "namespace name;" |
| `StringBuilders.GeneratorStringBuilder.AppendNullableEnable` | src/CodeOfChaos.GeneratorTools/StringBuilders/GeneratorStringBuilder.cs:41 | is AppendLine of "#nullable enable" |
| `StackBackports.Stack.constructor` | src/CodeOfChaos.GeneratorTools/Backports/StackBackports.cs:37 | the caller's stack holds the given items, top last, and its count is their number |
| `StackBackports.Stack.Count` | src/CodeOfChaos.GeneratorTools/Backports/StackBackports.cs:39 | the count of the stack is the number of its items |
| `StackBackports.TryPeek` | src/CodeOfChaos.GeneratorTools/Backports/StackBackports.cs:44-49 | on an empty stack gives (false, null). Otherwise the value is the top element and the answer is true exactly when it is non-null. A true answer always comes with a non-null value |
| `StackBackports.TryPop` | src/CodeOfChaos.GeneratorTools/Backports/StackBackports.cs:37-42 | an empty stack is left unchanged. Otherwise exactly the top element is removed, even a null one, and the count drops by 1. The answer and the value are those TryPeek gives on the stack before the call |
| `StackBackports.TryPeekThenTryPop` | tests/Tests.CodeOfChaos.GeneratorTools/Backports/StackBackportsTests.cs:93-104 | TryPeek followed by TryPop on the same stack reports the same value and the same answer |

## Left out

- `Environment.NewLine` is platform-dependent in .NET. Here it is the single constant `NL = "\n"`.
- The fluent return value (each method returns `this`) is not modelled. Chaining is just successive calls on the same object.
- `Indent(action)` takes an arbitrary C# closure. Here it takes a list of `Op` commands that can do what the builder's own API can do: append, write a line, write an empty line, write a body, nest another scope, or clear. Sugar such as `AppendUsings` inside a callback is expressed through these commands. Exceptions thrown by a callback are not modelled. The source has no try/finally, so no restore on abnormal exit is claimed.
- `StringBuilders.GeneratorStringBuilder.AppendMultipleUsings`: the `Func<IEnumerable<string>>` producers are given as their already-produced name sequences. `HashSet` enumeration order is unspecified, so the contract states uniqueness and set equality only, not a particular order.
- StackBackports: `TryPop` and `TryPeek` appear twice in the source under different `#if` guards (`:21-33` and `:37-49`). The bodies are identical, so one copy is modelled. For non-nullable value types, `default(T)` is their zero value rather than null, and `is not null` always holds; a stack of such values simply never holds `None`. For nullable value types such as `int?`, `None` is their null as for reference types.
- `StringBuilder` capacity and performance are not modelled.
- `TextLines.Indentation`: the source computes `amount * paddingChars` in 32-bit `int`. When that product overflows, the space count is negative and building the prefix throws. The model uses unbounded integers, so it always returns a prefix of depth*padding spaces and has no error path for overflow.
- Null string arguments are not modelled, because Dafny strings cannot be null. In the source, `AppendBody(null)` throws at the split, `Append(null)` appends nothing, and `AppendLine(null)` appends the prefix and the terminator.
- `SymbolResolver.cs` and `NamedTypeSymbolExtensions.cs` are thin wrappers over Roslyn's semantic model and type graph. They are not part of this model.
- The benchmark harness (`Testing.cs`, `Config.cs`) and the old `AppendBody` implementation kept for benchmarking are not part of this model. The old implementation uses the same split as the current one.
