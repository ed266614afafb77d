/** The examples written into the docstrings of result_modifier,
    Delay.__init__ and Delay.__cmp__, stated on the model. */
module UtilDoctests {
  import opened PyRuntime
  import opened Util

  /** result_modifier(res) with every keyword at its default. */
  const Defaults: Flags := Flags(NoSrc, false, false, false, false, false, None, false, None)

  function Call(res: seq<PyValue>, f: Flags): Result<Reply<PyValue>> {
    ResultModifier(res, Truthy, f)
  }

  function Fails(m: string): Option<string> { Some(m) }

  /** The counts in the messages are written in decimal. */
  lemma LiteralNoneMissMessage1()
    ensures NoneMissMessage(1) == "The result does not match 'none' flag, found 1 item(s)"
  {
  }

  lemma LiteralSingleMissMessage0()
    ensures SingleMissMessage(0) == "The result does not match 'single' flag, found 0 item(s)"
  {
  }

  lemma LiteralNumberMissMessage0()
    ensures NumberMissMessage(0) == "The result does not match 'number' value, found 0 item(s)"
  {
  }

  lemma LiteralNumberMissMessage1()
    ensures NumberMissMessage(1) == "The result does not match 'number' value, found 1 item(s)"
  {
  }

  /** The empty list. */
  lemma EmptyNotFoundAny()
    ensures Call([], Defaults.(notFound := true, any := true)) == Ok(Reply(false, Items([]), Fails(AnyMissMessage)))
  {
  }

  lemma EmptyAny()
    ensures Call([], Defaults.(any := true)) == Ok(Reply(false, Items([]), Fails(AnyMissMessage)))
  {
  }

  lemma EmptyNotFoundAll()
    ensures Call([], Defaults.(notFound := true, all := true)) == Ok(Reply(true, Items([]), None))
  {
  }

  lemma EmptyAll()
    ensures Call([], Defaults.(all := true)) == Ok(Reply(true, Items([]), None))
  {
  }

  lemma EmptyNotFoundSingle()
    ensures Call([], Defaults.(notFound := true, single := true)) == Ok(Reply(false, Items([]), Fails(SingleMissMessage(0))))
  {
  }

  lemma EmptySingle()
    ensures Call([], Defaults.(single := true)) == Ok(Reply(false, Items([]), Fails(SingleMissMessage(0))))
  {
  }

  lemma EmptyNotFoundNone()
    ensures Call([], Defaults.(notFound := true, none := true)) == Ok(Reply(true, Flag(true), None))
  {
  }

  lemma EmptyNone()
    ensures Call([], Defaults.(none := true)) == Ok(Reply(true, Flag(true), None))
  {
  }

  lemma EmptyNotFoundNumber0()
    ensures Call([], Defaults.(notFound := true, number := Some(0))) == Ok(Reply(true, Items([]), None))
  {
  }

  lemma EmptyNumber0()
    ensures Call([], Defaults.(number := Some(0))) == Ok(Reply(true, Items([]), None))
  {
  }

  lemma EmptyNumber1()
    ensures Call([], Defaults.(number := Some(1))) == Ok(Reply(false, Items([]), Fails(NumberMissMessage(0))))
  {
  }

  /** A list holding None, which is falsy. */
  lemma NoneElemNotFoundAny()
    ensures Call([PyNone], Defaults.(notFound := true, any := true)) == Ok(Reply(true, Items([PyNone]), None))
  {
  }

  lemma NoneElemAny()
    ensures Call([PyNone], Defaults.(any := true)) == Ok(Reply(false, Items([PyNone]), Fails(AnyMissMessage)))
  {
  }

  lemma NoneElemNotFoundAll()
    ensures Call([PyNone], Defaults.(notFound := true, all := true)) == Ok(Reply(true, Items([PyNone]), None))
  {
  }

  lemma NoneElemAll()
    ensures Call([PyNone], Defaults.(all := true)) == Ok(Reply(false, Items([PyNone]), Fails(AllMissMessage)))
  {
  }

  lemma NoneElemNotFoundSingle()
    ensures Call([PyNone], Defaults.(notFound := true, single := true)) == Ok(Reply(true, Item(PyNone), None))
  {
  }

  lemma NoneElemSingle()
    ensures Call([PyNone], Defaults.(single := true)) == Ok(Reply(false, Items([PyNone]), Fails(SingleMissMessage(0))))
  {
  }

  lemma NoneElemNotFoundNone()
    ensures Call([PyNone], Defaults.(notFound := true, none := true)) == Ok(Reply(false, Flag(false), Fails(NoneMissMessage(1))))
  {
  }

  lemma NoneElemNone()
    ensures Call([PyNone], Defaults.(none := true)) == Ok(Reply(true, Flag(true), None))
  {
  }

  lemma NoneElemNotFoundNumber0()
    ensures Call([PyNone], Defaults.(notFound := true, number := Some(0))) == Ok(Reply(false, Items([PyNone]), Fails(NumberMissMessage(1))))
  {
  }

  lemma NoneElemNumber0()
    ensures Call([PyNone], Defaults.(number := Some(0))) == Ok(Reply(true, Items([PyNone]), None))
  {
  }

  lemma NoneElemNotFoundNumber1()
    ensures Call([PyNone], Defaults.(notFound := true, number := Some(1))) == Ok(Reply(true, Items([PyNone]), None))
  {
  }

  lemma NoneElemNumber1()
    ensures Call([PyNone], Defaults.(number := Some(1))) == Ok(Reply(false, Items([PyNone]), Fails(NumberMissMessage(0))))
  {
  }

  /** A list holding 1, which is truthy. */
  lemma OneNotFoundAny()
    ensures Call([PyInt(1)], Defaults.(notFound := true, any := true)) == Ok(Reply(false, Items([PyInt(1)]), Fails(AnyMissMessage)))
  {
  }

  lemma OneNotFoundAnyPreferBool()
    ensures Call([PyInt(1)], Defaults.(notFound := true, any := true, preferBool := true)) == Ok(Reply(false, Flag(false), Fails(AnyMissMessage)))
  {
  }

  lemma OneAny()
    ensures Call([PyInt(1)], Defaults.(any := true)) == Ok(Reply(true, Items([PyInt(1)]), None))
  {
  }

  lemma OneNotFoundAll()
    ensures Call([PyInt(1)], Defaults.(notFound := true, all := true)) == Ok(Reply(false, Items([PyInt(1)]), Fails(AllMissMessage)))
  {
  }

  lemma OneAll()
    ensures Call([PyInt(1)], Defaults.(all := true)) == Ok(Reply(true, Items([PyInt(1)]), None))
  {
  }

  lemma OneNotFoundSingle()
    ensures Call([PyInt(1)], Defaults.(notFound := true, single := true)) == Ok(Reply(false, Items([PyInt(1)]), Fails(SingleMissMessage(0))))
  {
  }

  lemma OneSingle()
    ensures Call([PyInt(1)], Defaults.(single := true)) == Ok(Reply(true, Item(PyInt(1)), None))
  {
  }

  lemma OneNotFoundNone()
    ensures Call([PyInt(1)], Defaults.(notFound := true, none := true)) == Ok(Reply(true, Flag(true), None))
  {
  }

  lemma OneNone()
    ensures Call([PyInt(1)], Defaults.(none := true)) == Ok(Reply(false, Flag(false), Fails(NoneMissMessage(1))))
  {
  }

  lemma OneNotFoundNumber0()
    ensures Call([PyInt(1)], Defaults.(notFound := true, number := Some(0))) == Ok(Reply(true, Items([PyInt(1)]), None))
  {
  }

  lemma OneNumber0()
    ensures Call([PyInt(1)], Defaults.(number := Some(0))) == Ok(Reply(false, Items([PyInt(1)]), Fails(NumberMissMessage(1))))
  {
  }

  lemma OneNotFoundNumber1()
    ensures Call([PyInt(1)], Defaults.(notFound := true, number := Some(1))) == Ok(Reply(false, Items([PyInt(1)]), Fails(NumberMissMessage(0))))
  {
  }

  lemma OneNumber1()
    ensures Call([PyInt(1)], Defaults.(number := Some(1))) == Ok(Reply(true, Items([PyInt(1)]), None))
  {
  }

  /** Flag combinations and the kind of src_list. */
  lemma AnyWithAllRaises()
    ensures Call([], Defaults.(all := true, any := true)).Err? && Call([], Defaults.(all := true, any := true)).error.IronbotException?
  {
  }

  lemma EmptySingleNone()
    ensures Call([], Defaults.(single := true, none := true)) == Ok(Reply(true, Nothing, None))
  {
  }

  lemma OneSingleNone()
    ensures Call([PyInt(1)], Defaults.(single := true, none := true)) == Ok(Reply(true, Item(PyInt(1)), None))
  {
  }

  lemma OneScalarSrc()
    ensures Call([PyInt(1)], Defaults.(src := ScalarSrc)) == Ok(Reply(true, Item(PyInt(1)), None))
  {
  }

  lemma OneListSrc()
    ensures Call([PyInt(1)], Defaults.(src := ListSrc)) == Ok(Reply(true, Items([PyInt(1)]), None))
  {
  }

  lemma OneScalarSrcSingle()
    ensures Call([PyInt(1)], Defaults.(src := ScalarSrc, single := true)) == Ok(Reply(true, Item(PyInt(1)), None))
  {
  }

  lemma OneScalarSrcIndex0()
    ensures Call([PyInt(1)], Defaults.(src := ScalarSrc, index := Some(0))) == Ok(Reply(true, Item(PyInt(1)), None))
  {
  }

  // ---------------------------------------------------------------------
  // Delay, with BENCHMARK = 2 (the value the docstring's "~10s is 20
  // seconds" presumes) and any float() that reads the numerals of the
  // examples as ParseFloat does (Ten and Refused below)

  const Bench: real := 2.0

  lemma Ten()
    ensures ParseFloat("10") == Some(10.0)
  {
    ParseFloatOfNat(10);
    assert NatToString(10) == "10";
  }

  lemma Refused(numeral: string)
    requires numeral == "10n" || numeral == "a10"
    ensures ParseFloat(numeral) == None
  {
    StripUnchanged(numeral);
    assert IndexOfAny(numeral, {'e', 'E'}) == 3;
    assert numeral[..3] == numeral;
    assert IndexOfAny(numeral, {'.'}) == 3;
    assert numeral[..3] == numeral;
    assert !AllDigits(numeral);
  }

  lemma DelayTenSeconds(float: string -> Option<real>)
    requires float("10") == Some(10.0)
    ensures DelayValue(" 10s ", Bench, float) == Ok(Delay(Some(10.0)))
  {
    assert DelayValue(" 10s ", Bench, float) == ScaledDelay("10", 1.0, Bench, float) by {
      assert Strip(" 10s ") == "10s";
      assert "10s"[..2] == "10";
      assert UnitFrom("10s", 0) == Some(1);
    }
    UnflaggedScaled("10", 10.0, 1.0, Bench, float);
  }

  lemma DelayTenMilliseconds(float: string -> Option<real>)
    requires float("10") == Some(10.0)
    ensures DelayValue("10ms", Bench, float) == Ok(Delay(Some(0.01)))
  {
    assert DelayValue("10ms", Bench, float) == ScaledDelay("10", 0.001, Bench, float) by {
      StripUnchanged("10ms");
      assert "10ms"[..2] == "10";
      assert UnitFrom("10ms", 0) == Some(0);
    }
    UnflaggedScaled("10", 10.0, 0.001, Bench, float);
  }

  lemma DelayBenchmarkedTenSeconds(float: string -> Option<real>)
    requires float("10") == Some(10.0)
    ensures DelayValue(" ~10s ", Bench, float) == Ok(Delay(Some(20.0)))
  {
    assert DelayValue(" ~10s ", Bench, float) == ScaledDelay("~10", 1.0, Bench, float) by {
      assert Strip(" ~10s ") == "~10s";
      assert "~10s"[..3] == "~10";
      assert UnitFrom("~10s", 0) == Some(1);
    }
    FlaggedScaled("10", 10.0, 1.0, Bench, float);
    assert BENCHMARKED_FLAG + "10" == "~10";
  }

  lemma DelayBenchmarkedTenMilliseconds(float: string -> Option<real>)
    requires float("10") == Some(10.0)
    ensures DelayValue("~10ms", Bench, float) == Ok(Delay(Some(0.02)))
  {
    assert DelayValue("~10ms", Bench, float) == ScaledDelay("~10", 0.001, Bench, float) by {
      StripUnchanged("~10ms");
      assert "~10ms"[..3] == "~10";
      assert UnitFrom("~10ms", 0) == Some(0);
    }
    FlaggedScaled("10", 10.0, 0.001, Bench, float);
    assert BENCHMARKED_FLAG + "10" == "~10";
  }

  lemma DelayForever(float: string -> Option<real>)
    ensures DelayValue("forever", Bench, float) == Ok(Delay(None))
  {
    StripUnchanged("forever");
    assert Lower("forever") == FOREVER;
  }

  lemma DelayNanosecondsRefused(float: string -> Option<real>)
    requires float("10n") == None
    ensures DelayValue("10ns", Bench, float) == Err(IronbotException(NoFloatMessage("10n")))
  {
    assert DelayValue("10ns", Bench, float) == ScaledDelay("10n", 1.0, Bench, float) by {
      StripUnchanged("10ns");
      assert |Lower("10ns")| != |FOREVER|;
      assert "10ns"[..3] == "10n";
      assert UnitFrom("10ns", 0) == Some(1);
    }
    assert ScaledDelay("10n", 1.0, Bench, float) == NumberTimes("10n", 1.0, float) by {
      assert !StartsWith("10n", BENCHMARKED_FLAG);
    }
  }

  lemma DelayLetterRefused(float: string -> Option<real>)
    requires float("a10") == None
    ensures DelayValue("a10s", Bench, float) == Err(IronbotException(NoFloatMessage("a10")))
  {
    assert DelayValue("a10s", Bench, float) == ScaledDelay("a10", 1.0, Bench, float) by {
      StripUnchanged("a10s");
      assert |Lower("a10s")| != |FOREVER|;
      assert "a10s"[..3] == "a10";
      assert UnitFrom("a10s", 0) == Some(1);
    }
    assert ScaledDelay("a10", 1.0, Bench, float) == NumberTimes("a10", 1.0, float) by {
      assert !StartsWith("a10", BENCHMARKED_FLAG);
    }
  }

  lemma DelayBenchmarkedNanosecondsRefused(float: string -> Option<real>)
    requires float("10n") == None
    ensures DelayValue("~10ns", Bench, float) == Err(IronbotException(NoFloatMessage("10n")))
  {
    assert DelayValue("~10ns", Bench, float) == ScaledDelay("~10n", 1.0, Bench, float) by {
      StripUnchanged("~10ns");
      assert "~10ns"[..4] == "~10n";
      assert UnitFrom("~10ns", 0) == Some(1);
    }
    assert ScaledDelay("~10n", 1.0, Bench, float) == NumberTimes("10n", 1.0 * Bench, float) by {
      assert StartsWith("~10n", BENCHMARKED_FLAG);
      assert "~10n"[1..] == "10n";
    }
  }

  lemma DelayBenchmarkedLetterRefused(float: string -> Option<real>)
    requires float("a10") == None
    ensures DelayValue("~a10s", Bench, float) == Err(IronbotException(NoFloatMessage("a10")))
  {
    assert DelayValue("~a10s", Bench, float) == ScaledDelay("~a10", 1.0, Bench, float) by {
      StripUnchanged("~a10s");
      assert "~a10s"[..4] == "~a10";
      assert UnitFrom("~a10s", 0) == Some(1);
    }
    assert ScaledDelay("~a10", 1.0, Bench, float) == NumberTimes("a10", 1.0 * Bench, float) by {
      assert StartsWith("~a10", BENCHMARKED_FLAG);
      assert "~a10"[1..] == "a10";
    }
  }

  lemma DelayComparison()
    ensures var forever := Delay(None);
            var ten := Delay(Some(10.0));
            var eleven := Delay(Some(11.0));
            && Cmp(forever, OfDelay(forever)) == 0 && Cmp(forever, OfDelay(ten)) > 0 && Cmp(ten, OfDelay(forever)) < 0
            && Cmp(ten, OfDelay(ten)) == 0 && Cmp(eleven, OfDelay(ten)) > 0 && Cmp(ten, OfDelay(eleven)) < 0
            && Cmp(forever, NoneOperand) == 0 && Cmp(forever, Number(10.0)) > 0
            && Cmp(ten, Number(10.0)) == 0 && Cmp(eleven, Number(10.0)) > 0 && Cmp(ten, Number(11.0)) < 0
            && Cmp(ten, Number(9.0)) > 0
  {
  }
}
