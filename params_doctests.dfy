/** The examples in the docstrings of the parameter helpers, stated as
    lemmas (pure helpers) and as methods (the helpers that mutate a list or
    iterate over a dictionary). */
module ParamsDoctests {
  import opened PyRuntime
  import opened Params

  /** parse([1, 2, 3]) is [1, 2, 3]. */
  lemma ParseList()
    ensures Parse([PyInt(1), PyInt(2), PyInt(3)]) == [PyInt(1), PyInt(2), PyInt(3)]
  {
  }

  /** parse_bool('fAlSe') is False. */
  lemma ParseBoolFalse()
    ensures ParseBool(PyStr("fAlSe")) == Ok(false)
  {
    assert Upper("fAlSe") == "FALSE";
  }

  /** parse_bool('TrUe') is True. */
  lemma ParseBoolTrue()
    ensures ParseBool(PyStr("TrUe")) == Ok(true)
  {
    assert Upper("TrUe") == "TRUE";
  }

  /** parse_bool('TrAlSe') raises TuiaParametersException. */
  lemma ParseBoolRefused()
    ensures ParseBool(PyStr("TrAlSe")) == Err(TuiaParametersException(ExpectedBoolMessage("TrAlSe")))
  {
    assert Upper("TrAlSe") == "TRALSE";
  }

  /** fixed_val(3)(p) is 3, whatever p holds. */
  lemma FixedThree()
    ensures FixedVal(3)([PyInt(1), PyStr(" 2.0 "), PyStr(""), PyStr("s")]) == Ok(3)
  {
  }

  /** parse_bool as a rule over Python values: the bool it reads, as a value. */
  function BoolRule(v: PyValue): Result<PyValue> {
    match ParseBool(v)
    case Ok(b) => Ok(PyBool(b))
    case Err(e) => Err(e)
  }

  /** The rules (parse, parse, parse_bool) read ['a', 'b', 'YES'] whole. */
  lemma PositionalThree(rules: seq<Rule<PyValue, PyValue>>, params: seq<PyValue>)
    requires rules == [ParseRule(), ParseRule(), BoolRule]
    requires params == [PyStr("a"), PyStr("b"), PyStr("YES")]
    ensures Positional(rules, params) == Ok([PyStr("a"), PyStr("b"), PyBool(true)])
    ensures Consumed(rules, params) == 3
  {
    assert Upper("YES") == "YES";
    assert rules[2](params[2]) == Ok(PyBool(true));
    PositionalOkIff(rules, params);
    PositionalValues(rules, params);
    var ws := Positional(rules, params).value;
    assert rules[0](params[0]) == Ok(ws[0]) && rules[1](params[1]) == Ok(ws[1]) && rules[2](params[2]) == Ok(ws[2]);
    assert ws[0] == PyStr("a") && ws[1] == PyStr("b") && ws[2] == PyBool(true);
    assert ws == [PyStr("a"), PyStr("b"), PyBool(true)];
  }

  /** parse_positional((parse, parse, parse_bool), pl) on pl = ['a', 'b', 'YES']
      returns ['a', 'b', True] and leaves pl empty. */
  method PositionalExample() returns (r: Result<seq<PyValue>>, rest: seq<PyValue>)
    ensures r == Ok([PyStr("a"), PyStr("b"), PyBool(true)])
    ensures rest == []
  {
    var rules := [ParseRule(), ParseRule(), BoolRule];
    var pl := new PyList([PyStr("a"), PyStr("b"), PyStr("YES")]);
    PositionalThree(rules, pl.elems);
    r := ParsePositional(rules, pl);
    rest := pl.elems;
  }

  /** get_attr_and_action(' b  j  ', 'q') is ('j', 'b'). */
  lemma AttrAndActionTwoWords()
    ensures GetAttrAndAction(" b  j  ", Some("q")) == (Some("j"), Some("b"))
  {
    var parts := ["", "b", "", "j", "", ""];
    assert Join(parts, SPACE) == " b  j  ";
    assert NonEmpty(parts) == ["b", "j"];
    AttrAndActionOfTwoWords("b", "j", Some("q"), parts);
  }

  /** get_attr_and_action(' b  j  r', 'q') is (None, None). */
  lemma AttrAndActionThreeWords()
    ensures GetAttrAndAction(" b  j  r", Some("q")) == (None, None)
  {
    var parts := ["", "b", "", "j", "", "r"];
    assert Join(parts, SPACE) == " b  j  r";
    assert NonEmpty(parts) == ["b", "j", "r"];
    WordsOfJoin(parts);
  }

  /** get_attr_and_action(' b  ', 'q') is ('b', 'q'). */
  lemma AttrAndActionOneWord()
    ensures GetAttrAndAction(" b  ", Some("q")) == (Some("b"), Some("q"))
  {
    var parts := ["", "b", "", ""];
    assert Join(parts, SPACE) == " b  ";
    assert NonEmpty(parts) == ["b"];
    WordsOfJoin(parts);
  }

  /** pd = {'a': ('a1', fixed_val(0)), 'b': ('b1', fixed_val(0))} */
  function Pd(): map<string, (string, Rule<PyValue, int>)> {
    map["a" := ("a1", FixedVal(0)), "b" := ("b1", FixedVal(0))]
  }

  /** Every result of reading keywords with pd holds 0 under each key. */
  lemma NamedZero(kw: map<string, PyValue>, m: map<string, int>)
    requires NamedResult(Pd(), kw, m)
    ensures forall k :: k in m ==> m[k] == 0
  {
    forall k | k in m
      ensures m[k] == 0
    {
      var n :| n in kw && n in Pd() && Pd()[n].0 == k && Pd()[n].1(kw[n]) == Ok(m[k]);
      assert n == "a" || n == "b";
    }
  }

  lemma NamedKeys()
    ensures RenamedKeys(Pd(), {"a"}) == {"a1"}
    ensures RenamedKeys(Pd(), {"a", "b"}) == {"a1", "b1"}
  {
    var none: set<string> := {};
    assert RenamedKeys(Pd(), none) == {};
    RenamedKeysAdd(Pd(), none, "a");
    assert none + {"a"} == {"a"};
    RenamedKeysAdd(Pd(), {"a"}, "b");
    assert {"a"} + {"b"} == {"a", "b"};
  }

  /** parse_named2(pd, {'a': None}) is {'a1': 0}, and
      parse_named2(pd, {'a': None, 'b': 1}) is {'a1': 0, 'b1': 0}. */
  method NamedExample() returns (one: Result<map<string, int>>, two: Result<map<string, int>>)
    ensures one == Ok(map["a1" := 0])
    ensures two == Ok(map["a1" := 0, "b1" := 0])
  {
    var kw1 := map["a" := PyNone];
    var kw2 := map["a" := PyNone, "b" := PyInt(1)];
    NamedKeys();
    assert kw1.Keys == {"a"} && kw2.Keys == {"a", "b"};
    one := ParseNamed2(Pd(), kw1);
    NamedZero(kw1, one.value);
    assert one.value == map["a1" := 0];
    two := ParseNamed2(Pd(), kw2);
    NamedZero(kw2, two.value);
    assert two.value == map["a1" := 0, "b1" := 0];
  }
}
