# coul-framework: message templates and SQL condition construction

This project models two small parts of the coul-framework Java library and
proves properties of the models.

- **`MessageFormatter`** fills a message pattern with arguments. Each `{}`
  anchor is replaced, left to right, by the next argument. A backslash
  escapes a `{`. Two backslashes give one backslash followed by a
  substituted argument. A `{` that is not followed by `}` ends substitution.
  The model has an imperative copy of `arrayFormat` (a `while` loop over a
  cursor, an argument index and an output buffer). That method is proved
  equal to a recursive specification of the loop. Several facts are then
  proved about that specification:
  - what each iteration does;
  - that it agrees with an independent character-by-character reading of
    the pattern (`Render`) on every pattern without the shape `\\{\`, a
    double escape whose skipped character is a backslash. This hypothesis is
    sufficient, not the exact boundary. The skipped backslash is looked at
    again in only two cases. In `\\{\{` the next `{` sits right at the new
    cursor, and `isEscapedDelimeter` takes the skipped backslash as its
    escape, so the loop throws. In `\\{\\{` the next `{` sits one place later
    behind another backslash, and `isDoubleEscaped` takes the skipped
    backslash as the first of a second double escape. In other patterns of
    the shape, such as `\\{\x{}`, the two readings can still agree;
  - that it fails only on `\\{\{`, one case of that shape;
  - that patterns made of `{}` anchors and text with neither `{` nor `\` are filled in order;
  - a set of concrete instances.
- **`Condition`** builds SQL conditions. The model covers:
  - the operator tokens;
  - the jqGrid alias table (short search code to operator token);
  - the default `add`, which rejects composition;
  - the static factories `eq`, `lt`, `gt`, `ne`, `le`, `ge`, `like`, `isNull`,
    `isNotNull`, `betweenAnd`, `in`, `notIn`, `and` and `or`.

  Conditions are modelled as one datatype with a variant per concrete class.

Files:
- `wrappers.dfy`: the `Option` datatype.
- `message_formatter.dfy`: `arrayFormat`, the `format` overloads, the two escape predicates, the loop specification and one lemma per kind of iteration.
- `formatter_properties.dfy`: the reference reading `Render`, the agreement proof and the characterisation of the failure.
- `formatter_anchors.dfy`: patterns built only from `{}` and text with neither `{` nor `\`.
- `formatter_examples.dfy`: concrete patterns, including the ones in the Javadoc of `format`.
- `conditions.dfy`: the `Condition` construction surface.

Modelling choices:
- Arguments of `arrayFormat` are the strings `StringBuffer.append` would produce for them.
- A Java `null` pattern or argument array is `None`, and a `null` result is `Null`.
- `arrayFormat` can throw `StringIndexOutOfBoundsException` from `substring(i, j - 1)`. This is the outcome `IndexOutOfBounds(i, j - 1)`.
- The `L--` of the single-escape branch cancels the loop's `L++`, so the model leaves `L` unchanged there. The cursor grows on every iteration, so `|p| - i` alone bounds the loop.
- Condition parameters are `Param` values: `null`, a string, or another object identified by a number. Strings, varargs arrays and child conditions that Java may pass as `null` are `Option`s, so every factory keeps what it is given, `null` included.

Behaviour of the code worth knowing:
- An unknown alias code is not an error: `map.get` returns `null`, modelled as `None`.
- The alias table has no entry for `OR`. Only `bn` maps to a combinator, `AND`.
- The factories do not check for a `null` or empty column.
- `in`/`notIn` accept an empty parameter list.

## Model

| member | source | states |
|---|---|---|
| MessageFormatter.IndexOfRange | coul-framework-common/src/main/java/com/coul/common/utils/MessageFormatter.java:86 | `indexOf('{', i)` is -1, or an index at or after `i` that holds `{` |
| MessageFormatter.IndexOfIsFirst | coul-framework-common/src/main/java/com/coul/common/utils/MessageFormatter.java:86 | no `{` lies between the cursor and the index found, or after the cursor at all when none is found |
| MessageFormatter.Substring | coul-framework-common/src/main/java/com/coul/common/utils/MessageFormatter.java:103 | `substring(b, e)` succeeds exactly when `0 <= b <= e <= length`, and then yields the characters from `b` to `e` |
| MessageFormatter.IsEscapedDelimiter | coul-framework-common/src/main/java/com/coul/common/utils/MessageFormatter.java:131-142 | escaped exactly when the index is at least 1 and a backslash precedes it; a `{` at index 0 is never escaped |
| MessageFormatter.IsDoubleEscaped | coul-framework-common/src/main/java/com/coul/common/utils/MessageFormatter.java:144-151 | double-escaped exactly when the index is at least 2 and the character two places before is a backslash |
| MessageFormatter.FormatFrom | coul-framework-common/src/main/java/com/coul/common/utils/MessageFormatter.java:84-128 | the loop, entered at any cursor with any buffer, never yields `null` |
| MessageFormatter.FormatAt | coul-framework-common/src/main/java/com/coul/common/utils/MessageFormatter.java:86-124 | one iteration followed by the rest of the loop never yields `null` |
| MessageFormatter.ArrayFormatSpec | coul-framework-common/src/main/java/com/coul/common/utils/MessageFormatter.java:71-80 | the result is `null` exactly when the pattern is `null`; a `null` or empty argument array returns the pattern unchanged |
| MessageFormatter.StopKeepsOutput | coul-framework-common/src/main/java/com/coul/common/utils/MessageFormatter.java:88-117 | when no `{` follows the cursor, the only one is last, or an unescaped `{` is not followed by `}` (lines 88-96 and 114-117), the rest of the pattern is appended and the remaining arguments are ignored; from cursor 0 the pattern itself is returned |
| MessageFormatter.BadEscapeFails | coul-framework-common/src/main/java/com/coul/common/utils/MessageFormatter.java:100-103 | an escaped `{` whose backslash lies before the cursor makes `substring(i, j - 1)` throw |
| MessageFormatter.SingleEscapeStep | coul-framework-common/src/main/java/com/coul/common/utils/MessageFormatter.java:100-105 | at `\{` the text before the backslash and a literal `{` are appended, no argument is used, and the cursor moves past the `{`, so its `}` stays text |
| MessageFormatter.DoubleEscapeStep | coul-framework-common/src/main/java/com/coul/common/utils/MessageFormatter.java:106-113 | at `\\{` the text up to the second backslash and the next argument are appended, and the cursor skips two characters from the `{` whatever the second one is |
| MessageFormatter.AnchorStep | coul-framework-common/src/main/java/com/coul/common/utils/MessageFormatter.java:118-123 | at an unescaped `{}` the text before it and exactly the next argument are appended, and the cursor moves past both characters |
| MessageFormatter.ArrayFormat | coul-framework-common/src/main/java/com/coul/common/utils/MessageFormatter.java:70-129 | the loop returns the specification's outcome for every pattern and argument array, including `null`, the early returns and the exception |
| MessageFormatter.FormatOne | coul-framework-common/src/main/java/com/coul/common/utils/MessageFormatter.java:27-29 | `format(p, arg)` is `arrayFormat` on the one-element array |
| MessageFormatter.FormatTwo | coul-framework-common/src/main/java/com/coul/common/utils/MessageFormatter.java:54-56 | `format(p, arg1, arg2)` is `arrayFormat` on the two-element array, in that order |
| FormatterProperties.FormatFromRender | coul-framework-common/src/main/java/com/coul/common/utils/MessageFormatter.java:84-128 | from any cursor not preceded by a backslash, the loop appends the character-by-character reading `RenderFrom` to the buffer, on every pattern without a skipped escape |
| FormatterProperties.ArrayFormatIsRender | coul-framework-common/src/main/java/com/coul/common/utils/MessageFormatter.java:70-129 | on every pattern without `\\{\` and any arguments, `arrayFormat` equals the independent reading `Render` and so never throws |
| FormatterProperties.NoAnchorUnchanged | coul-framework-common/src/main/java/com/coul/common/utils/MessageFormatter.java:88-91 | a pattern with no `{` is returned as it is, whatever the arguments |
| FormatterProperties.FailureFrom | coul-framework-common/src/main/java/com/coul/common/utils/MessageFormatter.java:100-112 | entered at cursor `i`, the loop throws only at a `{` preceded by a backslash, right at the cursor or right after a double-escaped anchor that skipped that backslash |
| FormatterProperties.FailureShape | coul-framework-common/src/main/java/com/coul/common/utils/MessageFormatter.java:103 | `arrayFormat` throws only as `substring(b, b - 1)`, where `\\{\{` ends at `b`: a double escape whose skipped character is the backslash of the next `\{` |
| FormatterAnchors.AnchorsFilledInOrder | coul-framework-common/src/main/java/com/coul/common/utils/MessageFormatter.java:118-127 | in a pattern of `{}` anchors and text with neither `{` nor `\`, each anchor is replaced by the next argument in order; anchors beyond the last argument stay literally and surplus arguments are ignored |
| FormatterExamples.GreetingOne | coul-framework-common/src/main/java/com/coul/common/utils/MessageFormatter.java:15-18 | `format("Hi {}.", "there")` gives `"Hi there."` |
| FormatterExamples.GreetingTwo | coul-framework-common/src/main/java/com/coul/common/utils/MessageFormatter.java:39-42 | `format("Hi {}. My name is {}.", "Alice", "Bob")` gives `"Hi Alice. My name is Bob."` |
| FormatterExamples.SingleEscapeExample | coul-framework-common/src/main/java/com/coul/common/utils/MessageFormatter.java:100-105 | `\{} {}` with one argument gives `{} A`: the escaped anchor uses no argument |
| FormatterExamples.DoubleEscapeExample | coul-framework-common/src/main/java/com/coul/common/utils/MessageFormatter.java:106-112 | `\\{ab` gives a backslash, the argument and `b`: the `a` after `{` is dropped unchecked |
| FormatterExamples.UnpairedExample | coul-framework-common/src/main/java/com/coul/common/utils/MessageFormatter.java:114-117 | `a{b {}` is returned unchanged: the unpaired `{` ends substitution |
| FormatterExamples.SurplusAnchorExample | coul-framework-common/src/main/java/com/coul/common/utils/MessageFormatter.java:127 | `{} {}` with one argument keeps the second anchor |
| FormatterExamples.SurplusArgumentExample | coul-framework-common/src/main/java/com/coul/common/utils/MessageFormatter.java:84 | `{}` with two arguments uses only the first |
| FormatterExamples.SkippedEscapeThrows | coul-framework-common/src/main/java/com/coul/common/utils/MessageFormatter.java:103-112 | `\\{\{}` with two arguments throws as `substring(4, 3)` |
| FormatterExamples.SkippedBackslashReused | coul-framework-common/src/main/java/com/coul/common/utils/MessageFormatter.java:106-112 | `\\{\\{}` with two arguments gives a backslash and both arguments: the backslash skipped at line 112 serves again as the first backslash of the next double escape, where `Render` gives `\A{}` |
| FormatterExamples.SkippedBackslashNotReused | coul-framework-common/src/main/java/com/coul/common/utils/MessageFormatter.java:106-123 | `\\{\x{}` has a skipped backslash, yet with two arguments the next `{` is checked against `x` (line 136), and `arrayFormat` and `Render` both give `\AxB` |
| Conditions.InitAliases | coul-framework-core/src/main/java/com/coul/core/base/condition/Condition.java:45-58 | the ten `put`s into an empty map produce exactly the alias table |
| Conditions.Lookup | coul-framework-core/src/main/java/com/coul/core/base/condition/Condition.java:45-58 | a lookup finds a token exactly for the codes in the table, and that token is one of the declared operator tokens |
| Conditions.AliasCodes | coul-framework-core/src/main/java/com/coul/core/base/condition/Condition.java:46-58 | the table's codes are exactly `eq ne lt le gt ge cn nc bw bn` |
| Conditions.AliasCount | coul-framework-core/src/main/java/com/coul/core/base/condition/Condition.java:46-58 | the table has exactly ten entries |
| Conditions.EndsWithAbsent | coul-framework-core/src/main/java/com/coul/core/base/condition/Condition.java:57 | `en` is absent, so its lookup yields nothing, not an error |
| Conditions.AliasesInjective | coul-framework-core/src/main/java/com/coul/core/base/condition/Condition.java:47-56 | no two codes map to the same token |
| Conditions.AliasesAgreeWithFactories | coul-framework-core/src/main/java/com/coul/core/base/condition/Condition.java:47-56 | `eq ne lt le gt ge` map to the operator each corresponding factory uses; `cn nc bw bn` map to `IN`, `NOT IN`, `BETWEEN`, `AND` |
| Conditions.Add | coul-framework-core/src/main/java/com/coul/core/base/condition/Condition.java:104-113 | `add` fails with "Add component not supported!" exactly on conditions that are not `and`/`or` composites |
| Conditions.LeavesRejectAdd | coul-framework-core/src/main/java/com/coul/core/base/condition/Condition.java:81-113 | every condition built by a leaf factory, for any arguments (`betweenAnd` with any two limits), and both constant conditions reject `add` with that message |
| Conditions.CompositesOverrideAdd | coul-framework-core/src/main/java/com/coul/core/base/condition/Condition.java:103-110 | `and` and `or` results get the overridden `add` |
| Conditions.Eq | coul-framework-core/src/main/java/com/coul/core/base/condition/Condition.java:124-126 | a simple condition with operator `=`, column and parameter unchanged |
| Conditions.Lt | coul-framework-core/src/main/java/com/coul/core/base/condition/Condition.java:137-139 | a simple condition with operator `<`, column and parameter unchanged |
| Conditions.Gt | coul-framework-core/src/main/java/com/coul/core/base/condition/Condition.java:150-152 | a simple condition with operator `>`, column and parameter unchanged |
| Conditions.Ne | coul-framework-core/src/main/java/com/coul/core/base/condition/Condition.java:163-165 | a simple condition with operator `<>`, column and parameter unchanged |
| Conditions.Le | coul-framework-core/src/main/java/com/coul/core/base/condition/Condition.java:176-178 | a simple condition with operator `<=`, column and parameter unchanged |
| Conditions.Ge | coul-framework-core/src/main/java/com/coul/core/base/condition/Condition.java:189-191 | a simple condition with operator `>=`, column and parameter unchanged |
| Conditions.Like | coul-framework-core/src/main/java/com/coul/core/base/condition/Condition.java:202-204 | a simple condition with operator `LIKE` whose parameter is the given `String`, or `null` when that is `null` |
| Conditions.IsNullOf | coul-framework-core/src/main/java/com/coul/core/base/condition/Condition.java:214-216 | the null-check variant holding only the column |
| Conditions.IsNotNullOf | coul-framework-core/src/main/java/com/coul/core/base/condition/Condition.java:226-228 | the not-null-check variant holding only the column |
| Conditions.BetweenAndOf | coul-framework-core/src/main/java/com/coul/core/base/condition/Condition.java:240-243 | the range variant keeping column, lower limit and upper limit in that order |
| Conditions.InOf | coul-framework-core/src/main/java/com/coul/core/base/condition/Condition.java:255-258 | the membership variant keeping column, component text and parameters as given |
| Conditions.NotInOf | coul-framework-core/src/main/java/com/coul/core/base/condition/Condition.java:270-273 | the non-membership variant keeping column, component text and parameters as given |
| Conditions.AndOf | coul-framework-core/src/main/java/com/coul/core/base/condition/Condition.java:283-285 | a conjunction holding the children in argument order |
| Conditions.OrOf | coul-framework-core/src/main/java/com/coul/core/base/condition/Condition.java:295-297 | a disjunction holding the children in argument order |
| Conditions.SimpleFactoriesDistinct | coul-framework-core/src/main/java/com/coul/core/base/condition/Condition.java:29-35 | the seven simple-condition factories build seven different conditions from the same arguments |

## Left out

- Rendering of argument objects (`Object.toString`, and `"null"` for a `null` argument): arguments are already-rendered strings.
- The first `indexOf` of `arrayFormat` is dead, because its value is overwritten before use.
- Java's 32-bit `int` lengths and indices: sequence lengths are unbounded. So the model does not capture the overflow of the `StringBuffer` capacity `length() + 50` on patterns longer than `Integer.MAX_VALUE - 50` characters, where `new StringBuffer` throws `NegativeArraySizeException`. On shorter patterns the capacity hint has no observable effect.
- Strings are sequences of Unicode scalar values, while Java indexes UTF-16 code units. On patterns with characters outside the Basic Multilingual Plane the indices in `IndexOutOfBounds` differ from those of the Java exception, and lone surrogates cannot be represented.
- `ReflectUtil` is not part of this model: it is built on JVM reflection and class loading.
- `toSqlString` and `getParameters` are abstract in `Condition`. Their bodies live in subclasses that are not part of this model, so no SQL text or parameter list is modelled.
- Add: for `and`/`or` conditions it returns the marker `Overridden` instead of the appended composite, because their override is in classes that are not part of this model.
- The alias map is a public mutable static, and its static initializer runs under JVM class initialization. Both are left out: the table is modelled as a constant that `InitAliases` is proved to build.
- `BaseDomain` inheritance, `serialVersionUID` and serialization have no bearing on condition construction.
- The commented-out JavaScript `compareFnMap` is not code.
