/**
 * The cleaning example of the test suite, pass by pass:
 * `"This is a <b>test</b> text with   extra   spaces."` cleans to
 * `"This is a test text with extra spaces."`. Each literal fact is a lemma of
 * its own, and the passes are chained through the general lemmas of `TextRules`.
 */
module CleanExample {
  import opened PyText
  import opened TextRules

  lemma TagsCut()
    ensures "This is a <b>test</b> text with   extra   spaces."
         == "This is a " + "<" + "b" + ">" + "test" + "</" + "b" + ">" + " text with   extra   spaces."
  {
    TaggedHead();
    TaggedTail();
  }

  lemma TaggedTail()
    ensures "This is a <b>test</b> text with   extra   spaces."
         == "This is a <b>test</b>" + " text with   extra   spaces."
  {
  }

  lemma TaggedHead()
    ensures "This is a <b>test</b>" == "This is a " + "<" + "b" + ">" + "test" + "</" + "b" + ">"
  {
  }

  lemma TailHasNoOpening()
    ensures '<' !in " text with   extra   spaces."
  {
  }

  lemma TailHasNoTag()
    ensures StripTags(" text with   extra   spaces.") == " text with   extra   spaces."
  {
    TailHasNoOpening();
  }

  lemma TagsJoined()
    ensures "This is a " + "test" + " text with   extra   spaces." == "This is a test text with   extra   spaces."
  {
  }

  /** First pass: the `<b>` pair goes, its content stays. */
  lemma Untagged()
    ensures StripTags("This is a <b>test</b> text with   extra   spaces.")
         == "This is a test text with   extra   spaces."
  {
    var p, m, q := "This is a ", "test", " text with   extra   spaces.";
    calc {
      StripTags("This is a <b>test</b> text with   extra   spaces.");
      { TagsCut(); }
      StripTags(p + "<" + "b" + ">" + m + "</" + "b" + ">" + q);
      { StripTagsDropsPair(p, "b", m, q); }
      p + m + StripTags(q);
      { TailHasNoTag(); }
      p + m + q;
      { TagsJoined(); }
      "This is a test text with   extra   spaces.";
    }
  }

  lemma RunsCut()
    ensures "This is a test text with   extra   spaces."
         == "This is a test text with" + "   " + ("extra" + "   " + "spaces.")
  {
  }

  lemma OuterRun()
    ensures CollapseSpaces("This is a test text with" + "   " + ("extra" + "   " + "spaces."))
         == CollapseSpaces("This is a test text with") + " " + CollapseSpaces("extra" + "   " + "spaces.")
  {
    CollapseBetween("This is a test text with", "   ", "extra" + "   " + "spaces.");
  }

  lemma InnerRun()
    ensures CollapseSpaces("extra" + "   " + "spaces.") == CollapseSpaces("extra") + " " + CollapseSpaces("spaces.")
  {
    CollapseBetween("extra", "   ", "spaces.");
  }

  lemma SingleSpaced()
    ensures CollapseSpaces("This is a test text with") == "This is a test text with"
  {
    CollapseKeepsSingleSpaces("This is a test text with");
  }

  lemma FirstWord()
    ensures CollapseSpaces("extra") == "extra"
  {
    CollapseKeepsSingleSpaces("extra");
  }

  lemma LastWord()
    ensures CollapseSpaces("spaces.") == "spaces."
  {
    CollapseKeepsSingleSpaces("spaces.");
  }

  lemma RunsJoined()
    ensures "This is a test text with" + " " + ("extra" + " " + "spaces.") == "This is a test text with extra spaces."
  {
  }

  /** Second pass: each three-space run becomes one space. */
  lemma Collapsed()
    ensures CollapseSpaces("This is a test text with   extra   spaces.")
         == "This is a test text with extra spaces."
  {
    calc {
      CollapseSpaces("This is a test text with   extra   spaces.");
      { RunsCut(); }
      CollapseSpaces("This is a test text with" + "   " + ("extra" + "   " + "spaces."));
      { OuterRun(); }
      CollapseSpaces("This is a test text with") + " " + CollapseSpaces("extra" + "   " + "spaces.");
      { InnerRun(); }
      CollapseSpaces("This is a test text with") + " " + (CollapseSpaces("extra") + " " + CollapseSpaces("spaces."));
      { SingleSpaced(); FirstWord(); LastWord(); }
      "This is a test text with" + " " + ("extra" + " " + "spaces.");
      { RunsJoined(); }
      "This is a test text with extra spaces.";
    }
  }

  /** Third pass: every character of the collapsed text is allowed. */
  lemma AllAllowed()
    ensures KeepAllowed("This is a test text with extra spaces.") == "This is a test text with extra spaces."
  {
    KeepsAllowedText("This is a test text with extra spaces.");
  }

  /** Fourth pass: both ends are visible already. */
  lemma Stripped()
    ensures Strip("This is a test text with extra spaces.") == "This is a test text with extra spaces."
  {
    StripKeepsTrimmed("This is a test text with extra spaces.");
  }

  /** `_clean_text` on the test suite's example. */
  lemma CleanOfExample()
    ensures Clean("This is a <b>test</b> text with   extra   spaces.")
         == "This is a test text with extra spaces."
  {
    calc {
      Clean("This is a <b>test</b> text with   extra   spaces.");
      Strip(KeepAllowed(CollapseSpaces(StripTags("This is a <b>test</b> text with   extra   spaces."))));
      { Untagged(); }
      Strip(KeepAllowed(CollapseSpaces("This is a test text with   extra   spaces.")));
      { Collapsed(); }
      Strip(KeepAllowed("This is a test text with extra spaces."));
      { AllAllowed(); }
      Strip("This is a test text with extra spaces.");
      { Stripped(); }
      "This is a test text with extra spaces.";
    }
  }
}
