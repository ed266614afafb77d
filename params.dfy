/** The parameter-parsing helpers of the Robot Framework keywords: the
    identity rule, constant rules, booleans read from a fixed table,
    positional arguments consumed from the front of a mutable list, keyword
    arguments renamed through a table, the "action attribute" pair read
    from a space-separated string, and the decorator that puts them together. */
module Params {
  import opened PyRuntime

  /** A parsing rule: reads one argument, or raises. */
  type Rule<-V, W> = V -> Result<W>

  // ---------------------------------------------------------------------
  // parse and fixed_val

  /** parse(param): the argument as given. */
  function Parse<T>(param: T): T {
    param
  }

  /** parse, as a rule: it never raises. */
  function ParseRule<T(!new)>(): (rule: Rule<T, T>)
    ensures forall x :: rule(x) == Ok(x)
  {
    x => Ok(Parse(x))
  }

  /** fixed_val(val): the rule that ignores its argument and yields val. */
  function FixedVal<V(!new), W>(val: W): (rule: Rule<V, W>)
    ensures forall x :: rule(x) == Ok(val)
  {
    _ => Ok(val)
  }

  // ---------------------------------------------------------------------
  // str_2_bool and parse_bool

  /** BOOL_VALS: the upper-case spellings of the two truth values. */
  const BOOL_VALS: map<string, bool> :=
    map["TRUE" := true, "FALSE" := false, "Y" := true, "N" := false, "YES" := true, "NO" := false]

  const TRUE_WORDS: set<string> := {"TRUE", "Y", "YES"}
  const FALSE_WORDS: set<string> := {"FALSE", "N", "NO"}

  function CannotCastMessage(v: PyValue): string {
    "Cannot cast to bool: '" + Str(v) + "'"
  }

  function ExpectedBoolMessage(s: string): string {
    "Expected a value of type bool, got '" + s + "'"
  }

  /** str_2_bool(s): a bool as it is, a string looked up in upper case; any
      failure (a missing key, or a value without upper()) becomes a
      TuiaParametersException. */
  function StrToBool(v: PyValue): (r: Result<bool>)
    ensures v.PyBool? ==> r == Ok(v.b)
    ensures r.Err? ==> r.error == TuiaParametersException(CannotCastMessage(v))
  {
    match v
    case PyBool(b) => Ok(b)
    case PyStr(s) =>
      if Upper(s) in BOOL_VALS then Ok(BOOL_VALS[Upper(s)])
      else Err(TuiaParametersException(CannotCastMessage(v)))
    case _ => Err(TuiaParametersException(CannotCastMessage(v)))
  }

  /** parse_bool(param): like str_2_bool, but only the KeyError is turned
      into a TuiaParametersException; a value without upper() (None, an int)
      lets its AttributeError escape. */
  function ParseBool(param: PyValue): (r: Result<bool>)
    ensures param.PyBool? ==> r == Ok(param.b)
    ensures param.PyNone? || param.PyInt? ==> r == Err(AttributeError)
    ensures param.PyStr? && r.Err? ==> r.error == TuiaParametersException(ExpectedBoolMessage(param.s))
  {
    var s := Parse(param);
    match s
    case PyBool(b) => Ok(b)
    case PyStr(t) =>
      if Upper(t) in BOOL_VALS then Ok(BOOL_VALS[Upper(t)])
      else Err(TuiaParametersException(ExpectedBoolMessage(t)))
    case _ => Err(AttributeError)
  }

  /** The table: true for TRUE, Y, YES and false for FALSE, N, NO, in any
      case, and an exception for every other string. */
  lemma BoolTable(s: string)
    ensures ParseBool(PyStr(s)) == Ok(true) <==> Upper(s) in TRUE_WORDS
    ensures ParseBool(PyStr(s)) == Ok(false) <==> Upper(s) in FALSE_WORDS
    ensures ParseBool(PyStr(s)).Err? <==> Upper(s) !in TRUE_WORDS + FALSE_WORDS
  {
    assert BOOL_VALS.Keys == TRUE_WORDS + FALSE_WORDS;
  }

  /** The lookup ignores case: two strings that agree in upper case read
      as the same truth value, or both raise. */
  lemma {:induction false} ParseBoolIgnoresCase(s: string, t: string)
    requires Upper(s) == Upper(t)
    ensures ParseBool(PyStr(s)).Ok? <==> ParseBool(PyStr(t)).Ok?
    ensures ParseBool(PyStr(s)).Ok? ==> ParseBool(PyStr(s)) == ParseBool(PyStr(t))
  {
  }

  /** str() of a bool reads back as that bool. */
  lemma ParseBoolOfStr(b: bool)
    ensures ParseBool(PyStr(Str(PyBool(b)))) == Ok(b)
    ensures StrToBool(PyStr(Str(PyBool(b)))) == Ok(b)
  {
    if b {
      assert Upper("True") == "TRUE";
    } else {
      assert Upper("False") == "FALSE";
    }
  }

  /** parse_bool and str_2_bool accept the same strings and booleans and
      read them alike; they differ only in the exception they raise. */
  lemma ParseBoolAgreesWithStrToBool(v: PyValue)
    ensures ParseBool(v).Ok? <==> StrToBool(v).Ok?
    ensures ParseBool(v).Ok? ==> ParseBool(v) == StrToBool(v)
    ensures ParseBool(v).Err? ==> StrToBool(v).error.TuiaParametersException?
  {
  }

  // ---------------------------------------------------------------------
  // parse_positional

  /** What parse_positional(rules, L) returns or raises, for L = params:
      rule i applied to element i, in order; the first rule that raises, or
      the first rule with no element left (IndexError), stops it. */
  function Positional<V, W>(rules: seq<Rule<V, W>>, params: seq<V>): Result<seq<W>>
    decreases |rules|
  {
    if rules == [] then Ok([])
    else if params == [] then Err(IndexError)
    else match rules[0](params[0])
      case Err(e) => Err(e)
      case Ok(w) =>
        match Positional(rules[1..], params[1..])
        case Err(e) => Err(e)
        case Ok(ws) => Ok([w] + ws)
  }

  /** How many elements parse_positional deletes from the front of L: one
      per rule that returned. */
  function Consumed<V, W>(rules: seq<Rule<V, W>>, params: seq<V>): (n: nat)
    ensures n <= |rules| && n <= |params|
    decreases |rules|
  {
    if rules == [] || params == [] then 0
    else if rules[0](params[0]).Err? then 0
    else 1 + Consumed(rules[1..], params[1..])
  }

  /** A finished run followed by the rest. */
  function Prepend<W>(done: seq<W>, rest: Result<seq<W>>): Result<seq<W>> {
    match rest
    case Err(e) => Err(e)
    case Ok(ws) => Ok(done + ws)
  }

  /** parse_positional(rules, param_list): for each rule, apply it to
      param_list[0], collect the result and delete param_list[0]. */
  method ParsePositional<V, W>(rules: seq<Rule<V, W>>, paramList: PyList<V>) returns (r: Result<seq<W>>)
    modifies paramList
    ensures r == Positional(rules, old(paramList.elems))
    ensures paramList.elems == old(paramList.elems)[Consumed(rules, old(paramList.elems))..]
  {
    ghost var params := paramList.elems;
    var res: seq<W> := [];
    assert rules[0..] == rules && params[0..] == params;
    PrependEmpty(Positional(rules, params));
    for i := 0 to |rules|
      invariant i <= |params| && paramList.elems == params[i..]
      invariant Positional(rules, params) == Prepend(res, Positional(rules[i..], params[i..]))
      invariant Consumed(rules, params) == i + Consumed(rules[i..], params[i..])
    {
      if paramList.elems == [] {
        return Err(IndexError);
      }
      var x := rules[i](paramList.elems[0]);
      if x.Err? {
        return Err(x.error);
      }
      PositionalStep(rules, params, i);
      PrependTwice(res, [x.value], Positional(rules[i + 1..], params[i + 1..]));
      res := res + [x.value];
      paramList.elems := paramList.elems[1..];
    }
    assert rules[|rules|..] == [];
    assert res + [] == res;
    return Ok(res);
  }

  lemma PrependEmpty<W>(x: Result<seq<W>>)
    ensures Prepend([], x) == x
  {
    if x.Ok? {
      assert [] + x.value == x.value;
    }
  }

  lemma PrependTwice<W>(a: seq<W>, b: seq<W>, x: Result<seq<W>>)
    ensures Prepend(a, Prepend(b, x)) == Prepend(a + b, x)
  {
    if x.Ok? {
      assert a + (b + x.value) == (a + b) + x.value;
    }
  }

  /** One rule that returns: its result goes first, and its element is consumed. */
  lemma PositionalStep<V, W>(rules: seq<Rule<V, W>>, params: seq<V>, i: nat)
    requires i < |rules| && i < |params| && rules[i](params[i]).Ok?
    ensures Positional(rules[i..], params[i..]) ==
            Prepend([rules[i](params[i]).value], Positional(rules[i + 1..], params[i + 1..]))
    ensures Consumed(rules[i..], params[i..]) == 1 + Consumed(rules[i + 1..], params[i + 1..])
  {
    assert rules[i..][1..] == rules[i + 1..];
    assert params[i..][1..] == params[i + 1..];
  }

  /** parse_positional succeeds exactly when there are enough elements and
      every rule returns on its own element. */
  lemma {:induction false} PositionalOkIff<V, W>(rules: seq<Rule<V, W>>, params: seq<V>)
    ensures Positional(rules, params).Ok? <==>
            |rules| <= |params| && forall i :: 0 <= i < |rules| ==> rules[i](params[i]).Ok?
    decreases |rules|
  {
    if rules != [] && params != [] {
      PositionalOkIff(rules[1..], params[1..]);
      if rules[0](params[0]).Ok? && |rules| <= |params| && (forall i :: 1 <= i < |rules| ==> rules[i](params[i]).Ok?) {
        assert forall i :: 0 <= i < |rules| - 1 ==> rules[1..][i](params[1..][i]).Ok? by {
          forall i | 0 <= i < |rules| - 1 ensures rules[1..][i](params[1..][i]).Ok? {
            assert rules[1..][i] == rules[i + 1] && params[1..][i] == params[i + 1];
          }
        }
      }
      if Positional(rules, params).Ok? {
        forall i | 0 <= i < |rules| ensures rules[i](params[i]).Ok? {
          if i > 0 {
            assert rules[1..][i - 1] == rules[i] && params[1..][i - 1] == params[i];
          }
        }
      }
    }
  }

  /** On success there is one result per rule, each what its rule returned
      on its element, and every rule's element has been consumed. */
  lemma {:induction false} PositionalValues<V, W>(rules: seq<Rule<V, W>>, params: seq<V>)
    requires Positional(rules, params).Ok?
    ensures var ws := Positional(rules, params).value;
            |ws| == |rules| <= |params| && forall i :: 0 <= i < |rules| ==> rules[i](params[i]) == Ok(ws[i])
    ensures Consumed(rules, params) == |rules|
    decreases |rules|
  {
    if rules != [] {
      PositionalValues(rules[1..], params[1..]);
      var ws := Positional(rules, params).value;
      forall i | 1 <= i < |rules|
        ensures rules[i](params[i]) == Ok(ws[i])
      {
        assert rules[1..][i - 1] == rules[i] && params[1..][i - 1] == params[i];
      }
    }
  }

  /** With fewer elements than rules, and every available element read,
      parse_positional raises IndexError after consuming them all. */
  lemma {:induction false} PositionalTooShort<V, W>(rules: seq<Rule<V, W>>, params: seq<V>)
    requires |params| < |rules|
    requires forall i :: 0 <= i < |params| ==> rules[i](params[i]).Ok?
    ensures Positional(rules, params) == Err(IndexError)
    ensures Consumed(rules, params) == |params|
    decreases |params|
  {
    if params != [] {
      forall i | 0 <= i < |params| - 1 ensures rules[1..][i](params[1..][i]).Ok? {
        assert rules[1..][i] == rules[i + 1] && params[1..][i] == params[i + 1];
      }
      PositionalTooShort(rules[1..], params[1..]);
    }
  }

  /** With parse for every rule, parse_positional returns the first
      |rules| elements. */
  lemma {:induction false} PositionalOfParse<T(!new)>(rules: seq<Rule<T, T>>, params: seq<T>)
    requires |rules| <= |params|
    requires forall i :: 0 <= i < |rules| ==> rules[i] == ParseRule()
    ensures Positional(rules, params) == Ok(params[..|rules|])
  {
    assert forall i :: 0 <= i < |rules| ==> rules[i](params[i]) == Ok(params[i]);
    PositionalOkIff(rules, params);
    PositionalValues(rules, params);
    var ws := Positional(rules, params).value;
    forall i | 0 <= i < |rules| ensures ws[i] == params[..|rules|][i] {
      assert rules[i](params[i]) == Ok(ws[i]);
    }
    assert ws == params[..|rules|];
  }

  // ---------------------------------------------------------------------
  // get_attr_and_action

  const SPACE: char := ' '

  /** The pieces that are not empty, in order. */
  function NonEmpty(parts: seq<string>): (r: seq<string>)
    ensures |r| <= |parts|
    ensures forall w :: w in r <==> w in parts && w != []
    decreases |parts|
  {
    if parts == [] then []
    else if parts[0] == [] then NonEmpty(parts[1..])
    else [parts[0]] + NonEmpty(parts[1..])
  }

  /** [v for v in s.split(' ') if v]: the words of s. */
  function Words(s: string): (r: seq<string>)
    ensures forall i :: 0 <= i < |r| ==> r[i] != [] && SPACE !in r[i]
  {
    var r := NonEmpty(Split(s, SPACE));
    assert forall i :: 0 <= i < |r| ==> r[i] in r;
    r
  }

  /** get_attr_and_action(s, default_action): two words are the action and
      the attribute, one word is the attribute with the default action, and
      any other number of words gives (None, None). */
  function GetAttrAndAction(s: string, defaultAction: Option<string>): (r: (Option<string>, Option<string>))
    ensures r.0.Some? <==> 1 <= |Words(s)| <= 2
    ensures r.0.Some? ==> r.0.value == Words(s)[|Words(s)| - 1]
    ensures |Words(s)| == 2 ==> r.1 == Some(Words(s)[0])
    ensures |Words(s)| == 1 ==> r.1 == defaultAction
    ensures r.0.None? ==> r.1.None?
  {
    var w := Words(s);
    if |w| == 2 then (Some(w[1]), Some(w[0]))
    else if |w| == 1 then (Some(w[0]), defaultAction)
    else (None, None)
  }

  /** The filter keeps the order and the repetitions of the pieces:
      filtering a concatenation filters each part. */
  lemma {:induction false} NonEmptyAppend(a: seq<string>, b: seq<string>)
    ensures NonEmpty(a + b) == NonEmpty(a) + NonEmpty(b)
    decreases |a|
  {
    if a == [] {
      assert a + b == b;
    } else {
      assert (a + b)[0] == a[0];
      assert (a + b)[1..] == a[1..] + b;
      NonEmptyAppend(a[1..], b);
    }
  }

  /** The words of space-separated pieces are the non-empty pieces. */
  lemma WordsOfJoin(parts: seq<string>)
    requires |parts| >= 1
    requires forall i :: 0 <= i < |parts| ==> SPACE !in parts[i]
    ensures Words(Join(parts, SPACE)) == NonEmpty(parts)
  {
    SplitJoin(parts, SPACE);
  }

  /** Joining the words with single spaces and reading them again gives
      back the same words. */
  lemma WordsIdempotent(s: string)
    ensures Words(Join(Words(s), SPACE)) == Words(s)
  {
    var w := Words(s);
    if w == [] {
      assert Join(w, SPACE) == "";
      assert Split("", SPACE) == [""];
    } else {
      WordsOfJoin(w);
      NonEmptyOfWords(w);
    }
  }

  lemma {:induction false} NonEmptyOfWords(w: seq<string>)
    requires forall i :: 0 <= i < |w| ==> w[i] != []
    ensures NonEmpty(w) == w
    decreases |w|
  {
    if w != [] {
      NonEmptyOfWords(w[1..]);
      assert w == [w[0]] + w[1..];
    }
  }

  /** An attribute and an action written with any blanks around them. */
  lemma AttrAndActionOfTwoWords(action: string, attr: string, defaultAction: Option<string>, parts: seq<string>)
    requires |parts| >= 1 && forall i :: 0 <= i < |parts| ==> SPACE !in parts[i]
    requires NonEmpty(parts) == [action, attr]
    ensures GetAttrAndAction(Join(parts, SPACE), defaultAction) == (Some(attr), Some(action))
  {
    WordsOfJoin(parts);
  }

  // ---------------------------------------------------------------------
  // parse_named2

  /** Every named argument that pdict knows is read without raising. */
  ghost predicate NamedOk<K, K2, V, W>(pdict: map<K, (K2, Rule<V, W>)>, kw: map<K, V>) {
    forall n :: n in kw && n in pdict ==> pdict[n].1(kw[n]).Ok?
  }

  /** The renamed keys of the named arguments that pdict knows. */
  ghost function RenamedKeys<K, K2, V, W>(pdict: map<K, (K2, Rule<V, W>)>, names: set<K>): set<K2> {
    set n | n in names && n in pdict :: pdict[n].0
  }

  /** m is one possible result of parse_named2(pdict, kw): its keys are the
      renamed keys, and each value is what the rule of a name renamed to that
      key read from that name's argument. */
  ghost predicate NamedResult<K, K2, V, W>(pdict: map<K, (K2, Rule<V, W>)>, kw: map<K, V>, m: map<K2, W>) {
    && m.Keys == RenamedKeys(pdict, kw.Keys)
    && forall k :: k in m ==>
         exists n :: n in kw && n in pdict && pdict[n].0 == k && pdict[n].1(kw[n]) == Ok(m[k])
  }

  /** After the names in seen: all of them read without raising, and res
      holds what they produced. */
  ghost predicate Partial<K, K2, V, W>(pdict: map<K, (K2, Rule<V, W>)>, kw: map<K, V>, seen: set<K>, res: map<K2, W>) {
    && seen <= kw.Keys
    && (forall n :: n in seen && n in pdict ==> pdict[n].1(kw[n]).Ok?)
    && res.Keys == RenamedKeys(pdict, seen)
    && forall k :: k in res ==>
         exists n :: n in seen && n in pdict && pdict[n].0 == k && pdict[n].1(kw[n]) == Ok(res[k])
  }

  /** parse_named2(pdict, kw): for each named argument, in the dictionary's
      (unspecified) order, a name pdict knows is renamed and its value read by
      the name's rule; later writes to the same key win. */
  method ParseNamed2<K, K2(==), V, W>(pdict: map<K, (K2, Rule<V, W>)>, kw: map<K, V>) returns (r: Result<map<K2, W>>)
    ensures r.Ok? <==> NamedOk(pdict, kw)
    ensures r.Ok? ==> NamedResult(pdict, kw, r.value)
    ensures r.Err? ==> exists n :: n in kw && n in pdict && pdict[n].1(kw[n]) == Err(r.error)
  {
    var res: map<K2, W> := map[];
    var todo := kw.Keys;
    ghost var seen: set<K> := {};
    while todo != {}
      invariant todo + seen == kw.Keys && todo !! seen
      invariant Partial(pdict, kw, seen, res)
      decreases |todo|
    {
      var name :| name in todo;
      todo := todo - {name};
      var next := ReadName(pdict, kw, seen, res, name);
      if next.Err? {
        RuleRaises(pdict, kw, name, next.error);
        return Err(next.error);
      }
      res := next.value;
      seen := seen + {name};
    }
    PartialComplete(pdict, kw, res);
    return Ok(res);
  }

  /** One turn of parse_named2's loop: a name pdict knows is renamed and
      its value read by its rule, a name it does not know is skipped. */
  method ReadName<K, K2(==), V, W>(pdict: map<K, (K2, Rule<V, W>)>, kw: map<K, V>, ghost seen: set<K>,
                                   res: map<K2, W>, name: K) returns (r: Result<map<K2, W>>)
    requires Partial(pdict, kw, seen, res) && name in kw
    ensures r.Ok? ==> Partial(pdict, kw, seen + {name}, r.value)
    ensures r.Err? <==> name in pdict && pdict[name].1(kw[name]).Err?
    ensures r.Err? ==> pdict[name].1(kw[name]) == Err(r.error)
  {
    if name in pdict {
      var (rname, rproc) := pdict[name];
      var x := rproc(kw[name]);
      if x.Err? {
        return Err(x.error);
      }
      PartialAddKnown(pdict, kw, seen, res, name, x.value);
      return Ok(res[rname := x.value]);
    } else {
      PartialAddUnknown(pdict, kw, seen, res, name);
      return Ok(res);
    }
  }

  /** One known name whose rule raises makes the whole call raise. */
  lemma RuleRaises<K, K2, V, W>(pdict: map<K, (K2, Rule<V, W>)>, kw: map<K, V>, n: K, e: Error)
    requires n in kw && n in pdict && pdict[n].1(kw[n]) == Err(e)
    ensures !NamedOk(pdict, kw)
    ensures exists m :: m in kw && m in pdict && pdict[m].1(kw[m]) == Err(e)
  {
  }

  lemma PartialAddKnown<K, K2, V, W>(pdict: map<K, (K2, Rule<V, W>)>, kw: map<K, V>, seen: set<K>, res: map<K2, W>, n: K, w: W)
    requires Partial(pdict, kw, seen, res)
    requires n in kw && n in pdict && pdict[n].1(kw[n]) == Ok(w)
    ensures Partial(pdict, kw, seen + {n}, res[pdict[n].0 := w])
  {
    var res' := res[pdict[n].0 := w];
    RenamedKeysAdd(pdict, seen, n);
    forall k | k in res'
      ensures exists m :: m in seen + {n} && m in pdict && pdict[m].0 == k && pdict[m].1(kw[m]) == Ok(res'[k])
    {
      if k == pdict[n].0 {
        assert n in seen + {n} && pdict[n].1(kw[n]) == Ok(res'[k]);
      } else {
        var m :| m in seen && m in pdict && pdict[m].0 == k && pdict[m].1(kw[m]) == Ok(res[k]);
        assert m in seen + {n};
      }
    }
  }

  lemma PartialAddUnknown<K, K2, V, W>(pdict: map<K, (K2, Rule<V, W>)>, kw: map<K, V>, seen: set<K>, res: map<K2, W>, n: K)
    requires Partial(pdict, kw, seen, res)
    requires n in kw && n !in pdict
    ensures Partial(pdict, kw, seen + {n}, res)
  {
    assert RenamedKeys(pdict, seen + {n}) == RenamedKeys(pdict, seen);
    forall k | k in res
      ensures exists m :: m in seen + {n} && m in pdict && pdict[m].0 == k && pdict[m].1(kw[m]) == Ok(res[k])
    {
      var m :| m in seen && m in pdict && pdict[m].0 == k && pdict[m].1(kw[m]) == Ok(res[k]);
      assert m in seen + {n};
    }
  }

  lemma RenamedKeysAdd<K, K2, V, W>(pdict: map<K, (K2, Rule<V, W>)>, names: set<K>, n: K)
    requires n in pdict
    ensures RenamedKeys(pdict, names + {n}) == RenamedKeys(pdict, names) + {pdict[n].0}
  {
  }

  lemma PartialComplete<K, K2, V, W>(pdict: map<K, (K2, Rule<V, W>)>, kw: map<K, V>, res: map<K2, W>)
    requires Partial(pdict, kw, kw.Keys, res)
    ensures NamedOk(pdict, kw) && NamedResult(pdict, kw, res)
  {
  }

  /** With no two names renamed to the same key, the result is determined:
      each renamed key holds what its own rule read. */
  lemma NamedResultInjective<K, K2, V, W>(pdict: map<K, (K2, Rule<V, W>)>, kw: map<K, V>, m: map<K2, W>)
    requires NamedResult(pdict, kw, m)
    requires forall a, b :: a in pdict && b in pdict && pdict[a].0 == pdict[b].0 ==> a == b
    ensures forall n :: n in kw && n in pdict ==> pdict[n].1(kw[n]) == Ok(m[pdict[n].0])
  {
    forall n | n in kw && n in pdict
      ensures pdict[n].1(kw[n]) == Ok(m[pdict[n].0])
    {
      var k := pdict[n].0;
      assert k in RenamedKeys(pdict, kw.Keys);
      var n' :| n' in kw && n' in pdict && pdict[n'].0 == k && pdict[n'].1(kw[n']) == Ok(m[k]);
    }
  }

  /** Names that pdict does not know are dropped: they change neither the
      keys nor the possible results. */
  lemma NamedResultIgnoresUnknown<K, K2, V, W>(pdict: map<K, (K2, Rule<V, W>)>, kw: map<K, V>, m: map<K2, W>)
    ensures NamedResult(pdict, kw, m) <==>
            NamedResult(pdict, map n | n in kw && n in pdict :: kw[n], m)
  {
    var known := map n | n in kw && n in pdict :: kw[n];
    assert RenamedKeys(pdict, kw.Keys) == RenamedKeys(pdict, known.Keys);
  }

  // ---------------------------------------------------------------------
  // robot_args

  /** robot_args((pos, d))(f)(*a, **kw): copy the positional arguments into
      a fresh list, read |pos| of them with the rules pos, read the named
      ones with d, and call f; the keyword's own exceptions pass through. */
  method RobotArgs<K, K2(==), V, W, R>(pos: seq<Rule<V, W>>, d: map<K, (K2, Rule<V, W>)>,
                                   f: (seq<W>, map<K2, W>) -> R, a: seq<V>, kw: map<K, V>)
    returns (r: Result<R>)
    ensures r.Ok? <==> Positional(pos, a).Ok? && NamedOk(d, kw)
    ensures r.Ok? ==> exists named :: NamedResult(d, kw, named) && r.value == f(Positional(pos, a).value, named)
    ensures r.Err? && Positional(pos, a).Err? ==> r.error == Positional(pos, a).error
    ensures r.Err? && Positional(pos, a).Ok? ==> exists n :: n in kw && n in d && d[n].1(kw[n]) == Err(r.error)
  {
    var params := new PyList(a);
    var fixed := ParsePositional(pos, params);
    if fixed.Err? {
      return Err(fixed.error);
    }
    var named := ParseNamed2(d, kw);
    if named.Err? {
      return Err(named.error);
    }
    return Ok(f(fixed.value, named.value));
  }

  /** The keyword receives exactly |pos| positionals, each read by its
      rule; extra positionals are dropped. */
  lemma RobotArgsPositionals<V, W>(pos: seq<Rule<V, W>>, a: seq<V>)
    requires |pos| <= |a| && forall i :: 0 <= i < |pos| ==> pos[i](a[i]).Ok?
    ensures Positional(pos, a).Ok?
    ensures var fixed := Positional(pos, a).value;
            |fixed| == |pos| && forall i :: 0 <= i < |pos| ==> pos[i](a[i]) == Ok(fixed[i])
  {
    PositionalOkIff(pos, a);
    PositionalValues(pos, a);
  }
}
