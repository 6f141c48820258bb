/**
  Worked instances of `arrayFormat` and the `format` overloads on concrete
  patterns, one for each rule of the pattern language.
*/
module FormatterExamples {
  import opened Wrappers
  import opened MessageFormatter
  import opened FormatterProperties
  import opened FormatterAnchors

  /** `format("Hi {}.", "there")` is `"Hi there."`. */
  lemma GreetingOne()
    ensures ArrayFormatSpec(Some("Hi {}."), Some(["there"])) == Text("Hi there.")
  {
  }

  /** The two-anchor greeting, split into its plain text and its anchors. */
  lemma GreetingPattern()
    ensures Anchored(["Hi ", ". My name is ", "."]) == "Hi {}. My name is {}."
  {
  }

  /** The two-anchor greeting with both anchors filled. */
  lemma GreetingFilled()
    ensures Filled(["Hi ", ". My name is ", "."], ["Alice", "Bob"], 0) == "Hi Alice. My name is Bob."
  {
  }

  /** `format("Hi {}. My name is {}.", "Alice", "Bob")` is `"Hi Alice. My name is Bob."`. */
  lemma GreetingTwo()
    ensures ArrayFormatSpec(Some("Hi {}. My name is {}."), Some(["Alice", "Bob"])) == Text("Hi Alice. My name is Bob.")
  {
    GreetingPattern();
    GreetingFilled();
    AnchorsFilledInOrder(["Hi ", ". My name is ", "."], ["Alice", "Bob"]);
  }

  /** `\{` gives a literal `{` and uses no argument; its `}` stays. */
  lemma SingleEscapeExample()
    ensures ArrayFormatSpec(Some("\\{} {}"), Some(["A"])) == Text("{} A")
  {
  }

  /** `\\{` gives one backslash and the argument, and drops the character after `{`. */
  lemma DoubleEscapeExample()
    ensures ArrayFormatSpec(Some("\\\\{ab"), Some(["A"])) == Text("\\Ab")
  {
  }

  /** A `{` not followed by `}` stops substitution: the rest is copied. */
  lemma UnpairedExample()
    ensures ArrayFormatSpec(Some("a{b {}"), Some(["X"])) == Text("a{b {}")
  {
  }

  /** Anchors beyond the last argument stay in the output. */
  lemma SurplusAnchorExample()
    ensures ArrayFormatSpec(Some("{} {}"), Some(["A"])) == Text("A {}")
  {
  }

  /** Arguments beyond the last anchor are ignored. */
  lemma SurplusArgumentExample()
    ensures ArrayFormatSpec(Some("{}"), Some(["A", "B"])) == Text("A")
  {
  }

  /** `\\{\{}` with two arguments: the double escape moves the cursor onto
      the backslash of `\{`, and `substring(4, 3)` throws. */
  lemma SkippedEscapeThrows()
    ensures ArrayFormatSpec(Some("\\\\{\\{}"), Some(["A", "B"])) == IndexOutOfBounds(4, 3)
  {
  }

  /** `\\{\\{}` with two arguments: the backslash skipped by the first double
      escape is counted again as the first backslash of the second one, so the
      result is a backslash and both arguments, where the character-by-character
      reading gives `\A{}`. This is why `ArrayFormatIsRender` excludes every
      `\\{\`. */
  lemma SkippedBackslashReused()
    ensures ArrayFormatSpec(Some("\\\\{\\\\{}"), Some(["A", "B"])) == Text("\\AB")
    ensures Render("\\\\{\\\\{}", ["A", "B"]) == "\\A{}"
  {
  }

  /** `\\{\x{}` with two arguments: the double escape skips a backslash, but
      the next `{` is checked against `x`, so nothing is reused and the loop
      agrees with `Render` although `NoSkippedEscape` does not hold. */
  lemma SkippedBackslashNotReused()
    ensures !NoSkippedEscape("\\\\{\\x{}")
    ensures ArrayFormatSpec(Some("\\\\{\\x{}"), Some(["A", "B"])) == Text("\\AxB")
    ensures Render("\\\\{\\x{}", ["A", "B"]) == "\\AxB"
  {
    assert SkippedEscapeAt("\\\\{\\x{}", 2);
  }
}
