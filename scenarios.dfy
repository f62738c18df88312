/**
 * The cases of test/multple_test.go and test/single_test.go, replayed
 * against the contracts: registration with flag name "val" and usage
 * "enumerated parameter", then one `Set` per "--val" argument. The host
 * parser's own wrapping of a `Set` error is not part of this model, so the
 * cases check the holder's error itself.
 */
module Scenarios {
  import opened FlagErrors
  import opened Text
  import opened Validation
  import opened Holders
  import opened Registration

  /** The identity converter the tests pass in both directions. */
  function StrAsIs(s: string): string {
    s
  }

  /** Two renderings, the first non-empty, are joined with one comma. */
  lemma JoinedTwo(a: string, b: string)
    requires a != ""
    ensures Joined([a, b]) == a + "," + b
  {
    assert [a, b][..1] == [a];
    JoinedOne(a);
  }

  /** The comma-joined identity rendering of two values, the first non-empty. */
  lemma CsvTwo(a: string, b: string)
    requires a != ""
    ensures Csv(StrAsIs, [a, b]) == a + "," + b
  {
    assert Rendered(StrAsIs, [a, b]) == [a, b];
    JoinedTwo(a, b);
  }

  /** The comma-joined identity rendering of three values, the first non-empty. */
  lemma CsvThree(a: string, b: string, c: string)
    requires a != ""
    ensures Csv(StrAsIs, [a, b, c]) == a + "," + b + "," + c
  {
    assert Rendered(StrAsIs, [a, b, c]) == [a, b, c];
    assert [a, b, c][..2] == [a, b];
    JoinedTwo(a, b);
  }

  /** The usage suffix the multiple-flag test expects. */
  lemma MultipleSuffixText()
    ensures GetSuffix("enumerated parameter", "any of", StrAsIs, ["v1", "v2", "v3"]) == " (allowed any of v1,v2,v3)"
  {
    var csv := Csv(StrAsIs, ["v1", "v2", "v3"]);
    assert csv == "v1,v2,v3" by {
      CsvThree("v1", "v2", "v3");
    }
    assert GetSuffix("enumerated parameter", "any of", StrAsIs, ["v1", "v2", "v3"]) ==
      " " + ("(allowed " + "any of" + " " + csv + ")");
  }

  /** The usage suffix the single-flag test expects. */
  lemma SingleSuffixText()
    ensures GetSuffix("enumerated parameter", "one of", StrAsIs, ["v1", "v2"]) == " (allowed one of v1,v2)"
  {
    var csv := Csv(StrAsIs, ["v1", "v2"]);
    assert csv == "v1,v2" by {
      CsvTwo("v1", "v2");
    }
    assert GetSuffix("enumerated parameter", "one of", StrAsIs, ["v1", "v2"]) ==
      " " + ("(allowed " + "one of" + " " + csv + ")");
  }

  /** The text of the allow-list error the multiple-flag test expects. */
  lemma NotAllowedText()
    ensures Message(NotAllowed("second,third"), StrAsIs) == "must be one of second,third"
  {
  }

  /** The text of the duplicate error the multiple-flag test expects. */
  lemma DuplicatedText()
    ensures Message(Duplicated("", "x", "val"), StrAsIs) == "duplicated value \"x\" for flag -val"
  {
    assert Message(Duplicated("", "x", "val"), StrAsIs) ==
      "duplicated " + "" + "value \"" + "x" + "\" for flag -" + "val";
  }

  method MultipleWithoutDefaultsOrAllowList() {
    var h, _, err := Multiple("val", [], [], StrAsIs, StrAsIs, "enumerated parameter");
    var e1 := h.Set("first");
    var e2 := h.Set("second");
    assert e1 == None && e2 == None;
    assert h.values == ["first", "second"];
  }

  method MultipleDefaultsReplacedByArguments() {
    var h, _, err := Multiple("val", ["third"], [], StrAsIs, StrAsIs, "enumerated parameter");
    assert h.values == ["third"];
    var e1 := h.Set("first");
    var e2 := h.Set("second");
    assert e1 == None && e2 == None;
    assert h.values == ["first", "second"];
  }

  method MultipleDefaultsKeptWithoutArguments() {
    var h, _, err := Multiple("val", ["third"], ["third"], StrAsIs, StrAsIs, "enumerated parameter");
    assert err == None;
    assert h.values == ["third"];
  }

  method MultipleAllowedArgumentReplacesDefault() {
    var h, _, err := Multiple("val", ["third"], ["first", "second", "third"], StrAsIs, StrAsIs, "enumerated parameter");
    assert err == None;
    var e := h.Set("third");
    assert e == None;
    assert h.values == ["third"];
  }

  method MultipleRepeatedArgumentRejected() {
    var h, _, err := Multiple("val", [], [], StrAsIs, StrAsIs, "enumerated parameter");
    var e1 := h.Set("x");
    var e2 := h.Set("x");
    assert e2 == Some(Duplicated("", "x", "val"));
    DuplicatedText();
    assert Message(e2.value, StrAsIs) == "duplicated value \"x\" for flag -val";
    assert h.values == ["x"];
  }

  method MultipleDisallowedArgumentRejected() {
    var h, _, err := Multiple("val", [], ["second", "third"], StrAsIs, StrAsIs, "enumerated parameter");
    assert Distinct(["second", "third"]) by {
      assert "second"[0] != "third"[0];
    }
    assert err == None;
    assert "first" !in h.allowedUniques by {
      assert "first"[0] != "second"[0] && "first"[0] != "third"[0];
    }
    assert Csv(StrAsIs, h.allowed) == "second,third" by {
      CsvTwo("second", "third");
    }
    var e := h.Set("first");
    assert e == Some(NotAllowed("second,third"));
    NotAllowedText();
    assert Message(e.value, StrAsIs) == "must be one of second,third";
  }

  method MultipleRejectedArgumentStaysRecorded() {
    var h, _, err := Multiple("val", [], ["second", "third"], StrAsIs, StrAsIs, "enumerated parameter");
    assert Distinct(["second", "third"]) by {
      assert "second"[0] != "third"[0];
    }
    var e := h.Set("first");
    var again := h.Set("first");
    assert again == Some(Duplicated("", "first", "val"));
  }

  method MultipleRepeatedAllowedValueRejected() {
    var allowed := ["second", "second"];
    var h, _, err := Multiple("val", [], allowed, StrAsIs, StrAsIs, "enumerated parameter");
    assert allowed[..1] == ["second"];
    FirstRepeatUnique(allowed, 1);
    assert allowed[FirstRepeat(allowed)] == "second";
    assert err == Some(Duplicated("allowed", "second", "val"));
  }

  method MultipleDefaultOutsideAllowListRejected() {
    var allowed := ["second", "third"];
    var h, _, err := Multiple("val", ["fifth"], allowed, StrAsIs, StrAsIs, "enumerated parameter");
    assert Distinct(allowed) by {
      assert "second"[0] != "third"[0];
    }
    assert "fifth" !in Elems(allowed) by {
      assert "fifth"[0] != "second"[0] && "fifth"[0] != "third"[0];
    }
    FirstOutsideUnique(["fifth"], Elems(allowed), 0);
    assert Csv(StrAsIs, allowed) == "second,third" by {
      CsvTwo("second", "third");
    }
    assert err == Some(UnexpectedDefault("fifth", "val", NotAllowed("second,third")));
  }

  method MultipleUsage() {
    var h, usageText, err := Multiple("val", ["v1", "v3"], ["v1", "v2", "v3"], StrAsIs, StrAsIs, "enumerated parameter");
    assert err == None;
    MultipleSuffixText();
    assert usageText == "enumerated parameter" + " (allowed any of v1,v2,v3)";
  }

  method MultipleDefaultsRendered() {
    var h, _, err := Multiple("val", ["v1", "v3"], ["v1", "v2", "v3"], StrAsIs, StrAsIs, "enumerated parameter");
    assert err == None;
    assert Csv(StrAsIs, ["v1", "v3"]) == "v1,v3" by {
      CsvTwo("v1", "v3");
    }
    assert h.String() == "v1,v3";
  }

  method SingleLastOccurrenceWins() {
    var h, _, err := Single("val", "", "", ["first", "second", "third"], StrAsIs, StrAsIs, "enumerated parameter");
    assert err == None;
    var e1 := h.Set("first");
    var e2 := h.Set("third");
    var e3 := h.Set("third");
    assert e1 == None && e2 == None && e3 == None;
    assert h.value == "third";
  }

  method SingleZeroDefaultAccepted() {
    var h, _, err := Single("val", "", "", ["third"], StrAsIs, StrAsIs, "enumerated parameter");
    assert err == None;
    assert h.value == "";
  }

  method SingleDisallowedArgumentKeepsValue() {
    var h, _, err := Single("val", "third", "", ["second", "third"], StrAsIs, StrAsIs, "enumerated parameter");
    assert err == None;
    var e := h.Set("first");
    assert e.Some?;
    assert h.value == "third";
  }

  method SingleDefaultOutsideAllowListRejected() {
    var h, _, err := Single("val", "third", "", ["first", "second"], StrAsIs, StrAsIs, "enumerated parameter");
    assert Csv(StrAsIs, ["first", "second"]) == "first,second" by {
      CsvTwo("first", "second");
    }
    assert err == Some(UnexpectedDefault("third", "val", NotAllowed("first,second")));
  }

  method SingleUsage() {
    var h, usageText, err := Single("val", "v1", "", ["v1", "v2"], StrAsIs, StrAsIs, "enumerated parameter");
    assert err == None;
    SingleSuffixText();
    assert usageText == "enumerated parameter" + " (allowed one of v1,v2)";
    assert h.String() == "v1";
  }
}
