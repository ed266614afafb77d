/** The waiting helpers of impl/_util.py that carry logic: the result matcher
    `result_modifier` (with `_negate` and `make_prefer_bool`) and the `Delay`
    duration value (parsing and three-way comparison). */
module Util {
  import opened PyRuntime

  // =====================================================================
  // result_modifier

  /** What the caller passed as `src_list`: only whether it is absent (None),
      a list, or anything else is looked at. */
  datatype Source = NoSrc | ListSrc | ScalarSrc

  /** The keyword arguments of result_modifier. `number` and `index` are
      None when not given. */
  datatype Flags = Flags(
    src: Source,
    notFound: bool,
    any: bool,
    all: bool,
    single: bool,
    none: bool,
    number: Option<int>,
    preferBool: bool,
    index: Option<int>)

  /** The second component of the returned triple: the list `res` itself,
      one element of it, a boolean, or None. */
  datatype Matched<V> = Items(items: seq<V>) | Item(item: V) | Flag(flag: bool) | Nothing

  /** The triple (ok, result, message). */
  datatype Reply<V> = Reply(ok: bool, result: Matched<V>, message: Option<string>)

  /** _negate(not_found, v): whether v counts as found. */
  function Negate<V>(truthy: V -> bool, notFound: bool, v: V): (found: bool)
    ensures found <==> truthy(v) != notFound
  {
    if notFound then !truthy(v) else truthy(v)
  }

  /** `filtered`: the elements of res that count as found, in order. */
  function Found<V>(truthy: V -> bool, notFound: bool, res: seq<V>): (r: seq<V>)
    ensures |r| <= |res|
    ensures forall i :: 0 <= i < |r| ==> Negate(truthy, notFound, r[i])
  {
    if res == [] then []
    else (if Negate(truthy, notFound, res[0]) then [res[0]] else []) + Found(truthy, notFound, res[1..])
  }

  /** len([v for v in bs if v]) */
  function CountTrue(bs: seq<bool>): (n: nat)
    ensures n <= |bs|
  {
    if bs == [] then 0 else (if bs[0] then 1 else 0) + CountTrue(bs[1..])
  }

  /** The inner make_prefer_bool: with prefer_bool the result is replaced by ok. */
  function MakePreferBool<V>(preferBool: bool, ok: bool, res: Matched<V>, msg: Option<string>): Reply<V> {
    Reply(ok, if preferBool then Flag(ok) else res, msg)
  }

  const ExclusiveFlagsMessage: string :=
    "Of the following only 'single' and 'none' may be combined: 'any', 'all', 'single', 'none', 'number'"
  const IndexFlagMessage: string :=
    "'index' is incompatible with 'single', 'none', 'any', 'all' and 'number'"
  const IndexMissMessage: string := "Not enough items found for 'index' value"
  const AnyMissMessage: string := "The result does not match 'any' flag"
  const AllMissMessage: string := "The result does not match 'all' flag"
  const SingleOrNoneMissMessage: string := "The result does not match 'single' or 'none' value"

  function NoneMissMessage(n: nat): string {
    "The result does not match 'none' flag, found " + NatToString(n) + " item(s)"
  }

  function SingleMissMessage(n: nat): string {
    "The result does not match 'single' flag, found " + NatToString(n) + " item(s)"
  }

  function NumberMissMessage(n: nat): string {
    "The result does not match 'number' value, found " + NatToString(n) + " item(s)"
  }

  /** The flags after result_modifier's local rebinding: `single` and `none`
      given together, or a source that is neither a list nor absent, switch
      to the "single or none" mode. */
  datatype Rebound = Rebound(
    single: bool,
    none: bool,
    singleOrNone: bool,
    initialNone: bool,
    initialSingle: bool)

  function Rebind(f: Flags): (r: Rebound)
    ensures r.single <==> f.single && !f.none
    ensures r.none <==> f.none && !f.single
    ensures r.singleOrNone <==> (f.single && f.none) || (f.src == ScalarSrc && !f.single && !f.none)
    ensures r.initialNone == f.none
    // so 'Expected single result, got something' is never the message
    ensures r.singleOrNone ==> r.initialSingle
  {
    var both := f.single && f.none;
    var single := if both then false else f.single;
    var none := if both then false else f.none;
    var singleOrNone := (both || f.src == ScalarSrc) && !(single || none);
    Rebound(single, none, singleOrNone, f.none,
            if !f.none && !f.single then f.src != ListSrc else f.single)
  }

  /** The exception the two flag checks raise, if any. */
  function FlagCheck(f: Flags, b: Rebound): (r: Option<Error>)
    ensures r.Some? ==> r.value in {IronbotException(ExclusiveFlagsMessage), IronbotException(IndexFlagMessage)}
    ensures r.Some? <==> CountTrue([f.any, f.all, b.single, b.none, b.singleOrNone, f.number.Some?]) > 1 ||
                         CountTrue([f.any, f.all, b.single, b.none, f.number.Some?, f.index.Some?]) > 1
  {
    if CountTrue([f.any, f.all, b.single, b.none, b.singleOrNone, f.number.Some?]) > 1 then
      Some(IronbotException(ExclusiveFlagsMessage))
    else if CountTrue([f.any, f.all, b.single, b.none, f.number.Some?, f.index.Some?]) > 1 then
      Some(IronbotException(IndexFlagMessage))
    else None
  }

  /** The branch chain of result_modifier, once the flags have passed the checks. */
  function Match<V>(res: seq<V>, truthy: V -> bool, f: Flags, b: Rebound): (r: Result<Reply<V>>)
    ensures r.Ok? ==> (r.value.message.None? <==> r.value.ok)
    ensures r.Ok? && f.preferBool ==> r.value.result == Flag(r.value.ok)
  {
    var found := Found(truthy, f.notFound, res);
    var pb := f.preferBool;
    if f.index.Some? then
      var i := f.index.value;
      if |found| <= i then Ok(MakePreferBool(pb, false, Nothing, Some(IndexMissMessage)))
      else if 0 <= i then Ok(MakePreferBool(pb, true, Item(found[i]), None))
      // a negative index counts from the end, and raises below -len
      else if -i <= |found| then Ok(MakePreferBool(pb, true, Item(found[|found| + i]), None))
      else Err(IndexError)
    else if f.any then
      if |found| > 0 then Ok(MakePreferBool(pb, true, Items(res), None))
      else Ok(MakePreferBool(pb, false, Items(res), Some(AnyMissMessage)))
    else if f.all then
      if |found| == |res| then Ok(MakePreferBool(pb, true, Items(res), None))
      else Ok(MakePreferBool(pb, false, Items(res), Some(AllMissMessage)))
    else if b.none then
      if |found| == 0 then Ok(MakePreferBool(pb, true, Flag(true), None))
      else Ok(MakePreferBool(pb, false, Flag(false), Some(NoneMissMessage(|found|))))
    else if b.single then
      if |found| == 1 then Ok(MakePreferBool(pb, true, Item(res[0]), None))
      else Ok(MakePreferBool(pb, false, Items(res), Some(SingleMissMessage(|found|))))
    else if f.number.Some? then
      if |found| == f.number.value then Ok(MakePreferBool(pb, true, Items(res), None))
      else Ok(MakePreferBool(pb, false, Items(res), Some(NumberMissMessage(|found|))))
    else if b.singleOrNone then
      if |found| == 0 then
        Ok(MakePreferBool(pb, b.initialNone, Nothing,
                          if b.initialNone then None else Some("Expected none, got something")))
      else if |found| == 1 then
        Ok(MakePreferBool(pb, b.initialSingle, Item(res[0]),
                          if b.initialSingle then None else Some("Expected single result, got something")))
      else Ok(MakePreferBool(pb, false, Items(res), Some(SingleOrNoneMissMessage)))
    else Ok(MakePreferBool(pb, true, Items(res), None))
  }

  /** result_modifier(res, src_list, not_found, any, all, single, none, number,
      prefer_bool, index), with bool(v) given as `truthy`; Err is a raised
      exception. In every reply the message is absent exactly when ok holds,
      and with prefer_bool the result is ok itself. */
  function ResultModifier<V>(res: seq<V>, truthy: V -> bool, f: Flags): (r: Result<Reply<V>>)
    ensures r.Ok? ==> (r.value.message.None? <==> r.value.ok)
    ensures r.Ok? && f.preferBool ==> r.value.result == Flag(r.value.ok)
  {
    var b := Rebind(f);
    match FlagCheck(f, b)
    case Some(e) => Err(e)
    case None => Match(res, truthy, f, b)
  }

  // ---------------------------------------------------------------------
  // What `filtered` is

  /** Filtering distributes over concatenation. */
  lemma {:induction false} FoundAppend<V>(truthy: V -> bool, notFound: bool, a: seq<V>, b: seq<V>)
    ensures Found(truthy, notFound, a + b) == Found(truthy, notFound, a) + Found(truthy, notFound, b)
  {
    if a == [] {
      assert a + b == b;
    } else {
      assert (a + b)[0] == a[0];
      assert (a + b)[1..] == a[1..] + b;
      FoundAppend(truthy, notFound, a[1..], b);
    }
  }

  /** Something is found iff some element counts as found. */
  lemma {:induction false} FoundNonEmptyIff<V>(truthy: V -> bool, notFound: bool, res: seq<V>)
    ensures |Found(truthy, notFound, res)| > 0
        <==> exists i :: 0 <= i < |res| && Negate(truthy, notFound, res[i])
  {
    if res != [] {
      FoundNonEmptyIff(truthy, notFound, res[1..]);
      if exists i :: 0 <= i < |res| && Negate(truthy, notFound, res[i]) {
        var i :| 0 <= i < |res| && Negate(truthy, notFound, res[i]);
        if i > 0 {
          assert res[1..][i - 1] == res[i];
        }
      }
    }
  }

  /** Everything is found iff every element counts as found. */
  lemma {:induction false} FoundAllIff<V>(truthy: V -> bool, notFound: bool, res: seq<V>)
    ensures |Found(truthy, notFound, res)| == |res|
        <==> forall i :: 0 <= i < |res| ==> Negate(truthy, notFound, res[i])
  {
    if res != [] {
      FoundAllIff(truthy, notFound, res[1..]);
      assert forall i :: 1 <= i < |res| ==> res[1..][i - 1] == res[i];
    }
  }

  /** Exactly one thing is found iff exactly one element counts as found. */
  lemma {:induction false} FoundSingleIff<V>(truthy: V -> bool, notFound: bool, res: seq<V>)
    ensures |Found(truthy, notFound, res)| == 1
        <==> exists i :: 0 <= i < |res| && Negate(truthy, notFound, res[i]) &&
               forall j :: 0 <= j < |res| && j != i ==> !Negate(truthy, notFound, res[j])
  {
    if res != [] {
      var tail := res[1..];
      assert forall i :: 1 <= i < |res| ==> tail[i - 1] == res[i];
      FoundSingleIff(truthy, notFound, tail);
      FoundNonEmptyIff(truthy, notFound, tail);
      if |Found(truthy, notFound, res)| == 1 {
        if Negate(truthy, notFound, res[0]) {
          assert forall j :: 0 <= j < |res| && j != 0 ==> !Negate(truthy, notFound, res[j]);
        } else {
          var k :| 0 <= k < |tail| && Negate(truthy, notFound, tail[k]) &&
                   forall j :: 0 <= j < |tail| && j != k ==> !Negate(truthy, notFound, tail[j]);
          assert forall j :: 0 <= j < |res| && j != k + 1 ==> !Negate(truthy, notFound, res[j]);
        }
      }
    }
  }

  // ---------------------------------------------------------------------
  // Which flag combinations are refused

  predicate AtMostOne(bs: seq<bool>) {
    forall i, j :: 0 <= i < j < |bs| && bs[i] ==> !bs[j]
  }

  /** Counting at most one true flag is the same as no two flags being true. */
  lemma {:induction false} CountTrueAtMostOne(bs: seq<bool>)
    ensures CountTrue(bs) <= 1 <==> AtMostOne(bs)
  {
    if bs != [] {
      var tail := bs[1..];
      assert forall i :: 1 <= i < |bs| ==> tail[i - 1] == bs[i];
      CountTrueAtMostOne(tail);
      CountTrueZero(tail);
    }
  }

  lemma {:induction false} CountTrueZero(bs: seq<bool>)
    ensures CountTrue(bs) == 0 <==> forall i :: 0 <= i < |bs| ==> !bs[i]
  {
    if bs != [] {
      var tail := bs[1..];
      assert forall i :: 1 <= i < |bs| ==> tail[i - 1] == bs[i];
      CountTrueZero(tail);
    }
  }

  function Bit(b: bool): nat { if b then 1 else 0 }

  lemma CountTrue4(a: bool, b: bool, c: bool, d: bool)
    ensures CountTrue([a, b, c, d]) == Bit(a) + Bit(b) + Bit(c) + Bit(d)
  {
    assert CountTrue([d]) == Bit(d) by { assert [d][1..] == []; }
    assert CountTrue([c, d]) == Bit(c) + Bit(d) by { assert [c, d][1..] == [d]; }
    assert CountTrue([b, c, d]) == Bit(b) + Bit(c) + Bit(d) by { assert [b, c, d][1..] == [c, d]; }
    assert [a, b, c, d][1..] == [b, c, d];
  }

  lemma CountTrue5(a: bool, b: bool, c: bool, d: bool, e: bool)
    ensures CountTrue([a, b, c, d, e]) == Bit(a) + Bit(b) + Bit(c) + Bit(d) + Bit(e)
  {
    assert [a, b, c, d, e][1..] == [b, c, d, e];
    CountTrue4(b, c, d, e);
  }

  lemma CountTrue6(a: bool, b: bool, c: bool, d: bool, e: bool, g: bool)
    ensures CountTrue([a, b, c, d, e, g]) == Bit(a) + Bit(b) + Bit(c) + Bit(d) + Bit(e) + Bit(g)
  {
    assert [a, b, c, d, e, g][1..] == [b, c, d, e, g];
    CountTrue5(b, c, d, e, g);
  }

  /** The flag combinations result_modifier refuses, stated on the flags as
      the caller gives them: `single` and `none` together, or a source that is
      neither a list nor absent, make one "single or none" mode, which excludes
      `any`, `all` and `number`; and `index` excludes `any`, `all`, `number`
      and `single` or `none` given alone. */
  predicate Conflict(f: Flags) {
    || !AtMostOne([f.any, f.all, f.single || f.none || f.src == ScalarSrc, f.number.Some?])
    || !AtMostOne([f.any, f.all, f.single != f.none, f.number.Some?, f.index.Some?])
  }

  /** result_modifier raises IronbotException exactly on a conflict. */
  lemma RaisesIffConflict<V>(res: seq<V>, truthy: V -> bool, f: Flags)
    ensures var r := ResultModifier(res, truthy, f);
            (r.Err? && r.error.IronbotException?) <==> Conflict(f)
  {
    var b := Rebind(f);
    FlagCheckIffConflict(f);
    assert FlagCheck(f, b).None? ==> !Match(res, truthy, f, b).Err? || Match(res, truthy, f, b).error == IndexError;
  }

  /** The two flag checks fire exactly on a conflict. */
  lemma FlagCheckIffConflict(f: Flags)
    ensures FlagCheck(f, Rebind(f)).Some? <==> Conflict(f)
    ensures FlagCheck(f, Rebind(f)).Some? ==> FlagCheck(f, Rebind(f)).value.IronbotException?
  {
    var b := Rebind(f);
    CountTrue6(f.any, f.all, b.single, b.none, b.singleOrNone, f.number.Some?);
    CountTrue6(f.any, f.all, b.single, b.none, f.number.Some?, f.index.Some?);
    var first := [f.any, f.all, f.single || f.none || f.src == ScalarSrc, f.number.Some?];
    var second := [f.any, f.all, f.single != f.none, f.number.Some?, f.index.Some?];
    CountTrue4(first[0], first[1], first[2], first[3]);
    CountTrue5(second[0], second[1], second[2], second[3], second[4]);
    CountTrueAtMostOne(first);
    CountTrueAtMostOne(second);
  }

  /** Without a conflict, result_modifier runs its branch chain, and at most
      one quantifier is in force. */
  lemma PassesChecks<V>(res: seq<V>, truthy: V -> bool, f: Flags)
    requires !Conflict(f)
    ensures ResultModifier(res, truthy, f) == Match(res, truthy, f, Rebind(f))
    ensures f.any ==> !f.all && !f.single && !f.none && f.src != ScalarSrc && f.number.None? && f.index.None?
    ensures f.all ==> !f.single && !f.none && f.src != ScalarSrc && f.number.None? && f.index.None?
    ensures f.number.Some? ==> !f.single && !f.none && f.src != ScalarSrc && f.index.None?
    ensures f.single != f.none ==> f.index.None?
  {
    FlagCheckIffConflict(f);
    var first := [f.any, f.all, f.single || f.none || f.src == ScalarSrc, f.number.Some?];
    var second := [f.any, f.all, f.single != f.none, f.number.Some?, f.index.Some?];
    assert first[0] ==> !first[1] && !first[2] && !first[3];
    assert first[1] ==> !first[2] && !first[3];
    assert first[2] ==> !first[3];
    assert second[0] ==> !second[4];
    assert second[1] ==> !second[4];
    assert second[2] ==> !second[4];
    assert second[3] ==> !second[4];
  }

  // ---------------------------------------------------------------------
  // One lemma per quantifier

  /** `any` succeeds iff some element is found, and returns res unchanged. */
  lemma AnyMode<V>(res: seq<V>, truthy: V -> bool, f: Flags)
    requires f.any && !Conflict(f)
    ensures var r := ResultModifier(res, truthy, f);
            && r.Ok?
            && (r.value.ok <==> exists i :: 0 <= i < |res| && Negate(truthy, f.notFound, res[i]))
            && r.value.result == (if f.preferBool then Flag(r.value.ok) else Items(res))
            && r.value.message == (if r.value.ok then None else Some(AnyMissMessage))
  {
    PassesChecks(res, truthy, f);
    FoundNonEmptyIff(truthy, f.notFound, res);
  }

  /** `all` succeeds iff every element is found (so the empty list succeeds),
      and returns res unchanged. */
  lemma AllMode<V>(res: seq<V>, truthy: V -> bool, f: Flags)
    requires f.all && !Conflict(f)
    ensures var r := ResultModifier(res, truthy, f);
            && r.Ok?
            && (r.value.ok <==> forall i :: 0 <= i < |res| ==> Negate(truthy, f.notFound, res[i]))
            && r.value.result == (if f.preferBool then Flag(r.value.ok) else Items(res))
            && r.value.message == (if r.value.ok then None else Some(AllMissMessage))
  {
    PassesChecks(res, truthy, f);
    FoundAllIff(truthy, f.notFound, res);
  }

  /** `none` alone succeeds iff no element is found; its result is the
      boolean ok, never the list. */
  lemma NoneMode<V>(res: seq<V>, truthy: V -> bool, f: Flags)
    requires f.none && !f.single && !Conflict(f)
    ensures var r := ResultModifier(res, truthy, f);
            && r.Ok?
            && (r.value.ok <==> forall i :: 0 <= i < |res| ==> !Negate(truthy, f.notFound, res[i]))
            && r.value.result == Flag(r.value.ok)
            && r.value.message ==
               (if r.value.ok then None else Some(NoneMissMessage(|Found(truthy, f.notFound, res)|)))
  {
    PassesChecks(res, truthy, f);
    FoundNonEmptyIff(truthy, f.notFound, res);
  }

  /** `single` alone succeeds iff exactly one element is found, and then
      returns the first element of res (not necessarily the found one). */
  lemma SingleMode<V>(res: seq<V>, truthy: V -> bool, f: Flags)
    requires f.single && !f.none && !Conflict(f)
    ensures var r := ResultModifier(res, truthy, f);
            && r.Ok?
            && (r.value.ok <==> exists i :: 0 <= i < |res| && Negate(truthy, f.notFound, res[i]) &&
                                  forall j :: 0 <= j < |res| && j != i ==> !Negate(truthy, f.notFound, res[j]))
            && (r.value.ok && !f.preferBool ==> r.value.result == Item(res[0]))
            && (!r.value.ok && !f.preferBool ==> r.value.result == Items(res))
            && r.value.message ==
               (if r.value.ok then None else Some(SingleMissMessage(|Found(truthy, f.notFound, res)|)))
  {
    PassesChecks(res, truthy, f);
    FoundSingleIff(truthy, f.notFound, res);
  }

  /** `number=n` succeeds iff exactly n elements are found, and returns res unchanged. */
  lemma NumberMode<V>(res: seq<V>, truthy: V -> bool, f: Flags)
    requires f.number.Some? && !Conflict(f)
    ensures var r := ResultModifier(res, truthy, f);
            var count := |Found(truthy, f.notFound, res)|;
            && r.Ok?
            && (r.value.ok <==> count == f.number.value)
            && r.value.result == (if f.preferBool then Flag(r.value.ok) else Items(res))
            && r.value.message == (if r.value.ok then None else Some(NumberMissMessage(count)))
  {
    PassesChecks(res, truthy, f);
  }

  /** `index=i` (i >= 0) succeeds iff more than i elements are found, and
      returns the i-th found element; otherwise the result is None. */
  lemma IndexMode<V>(res: seq<V>, truthy: V -> bool, f: Flags)
    requires f.index.Some? && f.index.value >= 0 && !Conflict(f)
    ensures var r := ResultModifier(res, truthy, f);
            var found := Found(truthy, f.notFound, res);
            var i := f.index.value;
            && r.Ok?
            && (r.value.ok <==> i < |found|)
            && (!f.preferBool ==> r.value.result == if i < |found| then Item(found[i]) else Nothing)
            && r.value.message == (if r.value.ok then None else Some(IndexMissMessage))
  {
    PassesChecks(res, truthy, f);
  }

  /** A negative `index` counts from the end of the found elements, as
      Python indexing does, and raises IndexError below -len. */
  lemma NegativeIndexMode<V>(res: seq<V>, truthy: V -> bool, f: Flags)
    requires f.index.Some? && f.index.value < 0 && !Conflict(f)
    ensures var r := ResultModifier(res, truthy, f);
            var found := Found(truthy, f.notFound, res);
            var i := f.index.value;
            && (r.Ok? <==> -i <= |found|)
            && (r.Err? ==> r.error == IndexError)
            && (r.Ok? ==> r.value.ok && (!f.preferBool ==> r.value.result == Item(found[|found| + i])))
  {
    PassesChecks(res, truthy, f);
  }

  /** The single-or-none mode (`single` with `none`, or a scalar `src_list`
      with neither): nothing found succeeds iff `none` was asked for, with
      result None; one found succeeds with the first element of res; more
      fail. */
  lemma SingleOrNoneMode<V>(res: seq<V>, truthy: V -> bool, f: Flags)
    requires !Conflict(f) && f.index.None?
    requires (f.single && f.none) || (f.src == ScalarSrc && !f.single && !f.none)
    ensures var r := ResultModifier(res, truthy, f);
            var count := |Found(truthy, f.notFound, res)|;
            && r.Ok?
            && (r.value.ok <==> count == 1 || (count == 0 && f.none))
            && (!f.preferBool ==>
                  r.value.result == (if count == 0 then Nothing else if count == 1 then Item(res[0]) else Items(res)))
            && (count == 0 && !f.none ==> r.value.message == Some("Expected none, got something"))
            && (count == 1 ==> r.value.message.None?)
            && (count >= 2 ==> r.value.message == Some(SingleOrNoneMissMessage))
  {
    PassesChecks(res, truthy, f);
  }

  /** Without any quantifier and with a list or absent src_list, the call
      succeeds with res unchanged. */
  lemma PlainMode<V>(res: seq<V>, truthy: V -> bool, f: Flags)
    requires f.src != ScalarSrc && !f.any && !f.all && !f.single && !f.none
    requires f.number.None? && f.index.None?
    ensures ResultModifier(res, truthy, f) ==
            Ok(Reply(true, if f.preferBool then Flag(true) else Items(res), None))
  {
    PassesChecks(res, truthy, f);
  }

  /** prefer_bool only replaces the result by ok: with and without it the
      call raises alike, and otherwise agrees on ok and on the message. */
  lemma PreferBoolReplacesResult<V>(res: seq<V>, truthy: V -> bool, f: Flags)
    ensures var plain := ResultModifier(res, truthy, f.(preferBool := false));
            var pb := ResultModifier(res, truthy, f.(preferBool := true));
            && (plain.Err? <==> pb.Err?)
            && (plain.Err? ==> pb == plain)
            && (plain.Ok? ==> pb.value == Reply(plain.value.ok, Flag(plain.value.ok), plain.value.message))
  {
    var f0, f1 := f.(preferBool := false), f.(preferBool := true);
    var b := Rebind(f);
    assert Rebind(f0) == b && Rebind(f1) == b;
    var e := FlagCheck(f, b);
    assert FlagCheck(f0, b) == e && FlagCheck(f1, b) == e;
    if e.None? {
      assert ResultModifier(res, truthy, f0) == Match(res, truthy, f0, b);
      assert ResultModifier(res, truthy, f1) == Match(res, truthy, f1, b);
      MatchPreferBool(res, truthy, f, b);
    } else {
      assert ResultModifier(res, truthy, f0) == Err(e.value) == ResultModifier(res, truthy, f1);
    }
  }

  lemma MatchPreferBool<V>(res: seq<V>, truthy: V -> bool, f: Flags, b: Rebound)
    ensures var plain := Match(res, truthy, f.(preferBool := false), b);
            var pb := Match(res, truthy, f.(preferBool := true), b);
            && (plain.Err? <==> pb.Err?)
            && (plain.Err? ==> pb == plain)
            && (plain.Ok? ==> pb.value == Reply(plain.value.ok, Flag(plain.value.ok), plain.value.message))
  {
    var f0, f1 := f.(preferBool := false), f.(preferBool := true);
    var found := Found(truthy, f.notFound, res);
    var plain, pb := Match(res, truthy, f0, b), Match(res, truthy, f1, b);
    if f.index.Some? {
      var i := f.index.value;
      if |found| <= i {
        assert plain == Ok(Reply(false, Nothing, Some(IndexMissMessage)));
      } else if 0 <= i {
        assert plain == Ok(Reply(true, Item(found[i]), None));
      } else if -i <= |found| {
        assert plain == Ok(Reply(true, Item(found[|found| + i]), None));
      } else {
        assert plain == pb == Err(IndexError);
      }
    } else if f.any || f.all || b.none || b.single || f.number.Some? {
      assert plain.Ok? && pb.Ok? && pb.value.result == Flag(pb.value.ok);
      assert pb.value.ok == plain.value.ok && pb.value.message == plain.value.message;
    } else if b.singleOrNone {
      assert plain.Ok? && pb.Ok? && pb.value.result == Flag(pb.value.ok);
      assert pb.value.ok == plain.value.ok && pb.value.message == plain.value.message;
    } else {
      assert plain == Ok(Reply(true, Items(res), None));
    }
  }

  // =====================================================================
  // Delay

  /** Delay.COEFF: the time units and their length in seconds, tried in this
      order (so "ms" is recognised before "s"). */
  const COEFF: seq<(string, real)> := [("ms", 0.001), ("s", 1.0), ("m", 60.0), ("h", 3600.0)]
  const FOREVER: string := "forever"
  const BENCHMARKED_FLAG: string := "~"

  /** A Delay object: its length in seconds, or None for forever. Its only
      field is set once, by the constructor. */
  datatype Delay = Delay(value: Option<real>)

  function NoUnitsMessage(s: string): string {
    "Cannot parse a delay value, no time units given: '" + s + "'"
  }

  function NoFloatMessage(s: string): string {
    "Cannot parse a delay value, it should contain a float value: '" + s + "'"
  }

  /** The position in COEFF, from j on, of the first unit that ends t. */
  function UnitFrom(t: string, j: nat): (r: Option<nat>)
    requires j <= |COEFF|
    ensures r.Some? ==> j <= r.value < |COEFF| && EndsWith(t, COEFF[r.value].0)
    ensures forall k :: j <= k < |COEFF| && (r.None? || k < r.value) ==> !EndsWith(t, COEFF[k].0)
    decreases |COEFF| - j
  {
    if j == |COEFF| then None
    else if EndsWith(t, COEFF[j].0) then Some(j)
    else UnitFrom(t, j + 1)
  }

  /** What Delay(s) does when the class attribute BENCHMARK is `benchmark`
      and float() is `float` (None for its ValueError): the Delay built, or
      the IronbotException raised. */
  function DelayValue(s: string, benchmark: real, float: string -> Option<real>): Result<Delay> {
    var t := Strip(s);
    if Lower(t) == FOREVER then Ok(Delay(None))
    else match UnitFrom(t, 0)
      case None => Err(IronbotException(NoUnitsMessage(t)))
      case Some(i) => ScaledDelay(t[..|t| - |COEFF[i].0|], COEFF[i].1, benchmark, float)
  }

  /** The rest of Delay(s) once the unit is removed: a leading benchmark flag
      multiplies the coefficient by BENCHMARK, then the number is read. */
  function ScaledDelay(body: string, coeff: real, benchmark: real, float: string -> Option<real>): Result<Delay> {
    if StartsWith(body, BENCHMARKED_FLAG) then NumberTimes(body[|BENCHMARKED_FLAG|..], coeff * benchmark, float)
    else NumberTimes(body, coeff, float)
  }

  /** float(numeral) * k, or the exception for a numeral float() refuses. */
  function NumberTimes(numeral: string, k: real, float: string -> Option<real>): Result<Delay> {
    match float(numeral)
    case None => Err(IronbotException(NoFloatMessage(numeral)))
    case Some(x) => Ok(Delay(Some(x * k)))
  }

  /** The loop of Delay.__init__ over COEFF: the coefficient of the first unit
      that ends t, and t without that unit. */
  method StripUnit(t: string) returns (k: Option<real>, rest: string)
    ensures k.None? <==> UnitFrom(t, 0).None?
    ensures k.None? ==> rest == t
    ensures k.Some? ==> var i := UnitFrom(t, 0).value;
                        k.value == COEFF[i].1 && rest == t[..|t| - |COEFF[i].0|]
  {
    k, rest := None, t;
    for n := 0 to |COEFF|
      invariant k.None? && rest == t
      invariant UnitFrom(t, 0) == UnitFrom(t, n)
    {
      var (u, v) := COEFF[n];
      if EndsWith(rest, u) {
        k := Some(v);
        rest := rest[..|rest| - |u|];
        assert UnitFrom(t, 0) == Some(n);
        return;
      }
    }
  }

  /** Delay.__init__(s): strip, recognise forever, try the units in order,
      then the benchmark flag, then the number. */
  method NewDelay(s: string, benchmark: real, float: string -> Option<real>) returns (r: Result<Delay>)
    ensures r == DelayValue(s, benchmark, float)
  {
    var t := Strip(s);
    if Lower(t) == FOREVER {
      return Ok(Delay(None));
    }
    var k;
    k, t := StripUnit(t);
    if k.None? {
      return Err(IronbotException(NoUnitsMessage(t)));
    }
    r := ApplyBenchmark(t, k.value, benchmark, float);
  }

  /** The end of Delay.__init__: a leading benchmark flag is dropped and
      multiplies the coefficient by BENCHMARK, then the number is read. */
  method ApplyBenchmark(body: string, coeff: real, benchmark: real, float: string -> Option<real>) returns (r: Result<Delay>)
    ensures r == ScaledDelay(body, coeff, benchmark, float)
  {
    var t, k := body, coeff;
    if StartsWith(t, BENCHMARKED_FLAG) {
      t := t[|BENCHMARKED_FLAG|..];
      k := k * benchmark;
    }
    r := NumberTimes(t, k, float);
  }

  /** A Delay is forever exactly when the stripped text is "forever" in any case. */
  lemma ForeverIff(s: string, benchmark: real, float: string -> Option<real>)
    ensures DelayValue(s, benchmark, float) == Ok(Delay(None)) <==> Lower(Strip(s)) == FOREVER
  {
    var t := Strip(s);
    if Lower(t) != FOREVER && UnitFrom(t, 0).Some? {
      var i := UnitFrom(t, 0).value;
      ScaledIsFinite(t[..|t| - |COEFF[i].0|], COEFF[i].1, benchmark, float);
    }
  }

  /** A number read with a unit is never forever. */
  lemma ScaledIsFinite(body: string, coeff: real, benchmark: real, float: string -> Option<real>)
    ensures ScaledDelay(body, coeff, benchmark, float) != Ok(Delay(None))
  {
  }

  /** Without one of the units at its end the text is refused. */
  lemma NoUnitRaises(s: string, benchmark: real, float: string -> Option<real>)
    requires Lower(Strip(s)) != FOREVER
    requires forall i :: 0 <= i < |COEFF| ==> !EndsWith(Strip(s), COEFF[i].0)
    ensures DelayValue(s, benchmark, float) == Err(IronbotException(NoUnitsMessage(Strip(s))))
  {
  }

  /** After a digit, the unit recognised is the one written: "ms" is not
      mistaken for "s". */
  lemma UnitAfterDigit(body: string, i: nat)
    requires i < |COEFF| && body != [] && IsDigit(body[|body| - 1])
    ensures UnitFrom(body + COEFF[i].0, 0) == Some(i)
  {
    var text := body + COEFF[i].0;
    var u := COEFF[i].0;
    assert text[|text| - |u|..] == u;
    assert text[|text| - 1] == u[|u| - 1];
    assert text[|text| - |u| - 1] == body[|body| - 1];
    if i == 1 {
      assert text[|text| - 2] != 'm';
      assert !EndsWith(text, COEFF[0].0);
    }
  }

  /** A text ending in a digit and then a unit, and starting with neither
      blank nor the f of forever, is the Delay its body before the unit
      describes, scaled by that unit. */
  lemma DelayOfUnitText(body: string, i: nat, benchmark: real, float: string -> Option<real>)
    requires i < |COEFF| && body != [] && IsDigit(body[|body| - 1])
    requires !IsSpace(body[0]) && LowerChar(body[0]) != FOREVER[0]
    ensures DelayValue(body + COEFF[i].0, benchmark, float) == ScaledDelay(body, COEFF[i].1, benchmark, float)
  {
    var text := body + COEFF[i].0;
    UnitAfterDigit(body, i);
    assert text[|text| - 1] == COEFF[i].0[|COEFF[i].0| - 1];
    assert text[0] == body[0];
    StripUnchanged(text);
    assert Lower(text)[0] != FOREVER[0];
    assert text[..|text| - |COEFF[i].0|] == body;
  }

  /** DelayOfUnitText for a unit and its coefficient named directly. */
  lemma UnitTextScaled(body: string, u: string, c: real, benchmark: real, float: string -> Option<real>)
    requires (u, c) in COEFF && body != [] && IsDigit(body[|body| - 1])
    requires IsDigit(body[0]) || body[0] == BENCHMARKED_FLAG[0]
    ensures DelayValue(body + u, benchmark, float) == ScaledDelay(body, c, benchmark, float)
  {
    var i :| 0 <= i < |COEFF| && COEFF[i] == (u, c);
    DelayOfUnitText(body, i, benchmark, float);
  }

  /** A numeral float() reads as v, times k. */
  lemma NumberTimesOf(numeral: string, v: real, k: real, float: string -> Option<real>)
    requires float(numeral) == Some(v)
    ensures NumberTimes(numeral, k, float) == Ok(Delay(Some(v * k)))
  {
    var r := NumberTimes(numeral, k, float);
    assert r.Ok? && r.value.value.Some?;
    assert r.value.value.value == v * k;
  }

  /** A body that starts with a digit carries no benchmark flag. */
  lemma Unflagged(body: string, coeff: real, benchmark: real, float: string -> Option<real>)
    requires body != [] && IsDigit(body[0])
    ensures ScaledDelay(body, coeff, benchmark, float) == NumberTimes(body, coeff, float)
  {
    assert !StartsWith(body, BENCHMARKED_FLAG);
  }

  /** Without the flag the number is read as it stands. */
  lemma UnflaggedScaled(body: string, v: real, coeff: real, benchmark: real, float: string -> Option<real>)
    requires body != [] && IsDigit(body[0]) && float(body) == Some(v)
    ensures ScaledDelay(body, coeff, benchmark, float) == Ok(Delay(Some(v * coeff)))
  {
    NumberTimesOf(body, v, coeff, float);
    assert !StartsWith(body, BENCHMARKED_FLAG);
  }

  /** With the flag the number after it is read, times BENCHMARK. */
  lemma FlaggedScaled(numeral: string, v: real, coeff: real, benchmark: real, float: string -> Option<real>)
    requires float(numeral) == Some(v)
    ensures ScaledDelay(BENCHMARKED_FLAG + numeral, coeff, benchmark, float) == Ok(Delay(Some(v * (coeff * benchmark))))
  {
    var body := BENCHMARKED_FLAG + numeral;
    assert body[..|BENCHMARKED_FLAG|] == BENCHMARKED_FLAG;
    assert body[|BENCHMARKED_FLAG|..] == numeral;
    var r := ScaledDelay(body, coeff, benchmark, float);
    assert r == NumberTimes(numeral, coeff * benchmark, float);
    NumberTimesOf(numeral, v, coeff * benchmark, float);
    assert r.Ok? && r.value.value.Some?;
    assert r.value.value.value == v * (coeff * benchmark);
  }

  /** Digits followed by a unit are that many units: v * c seconds, where v
      is what float() reads the digits as (with ParseFloat, their value). */
  lemma DelayOfNumeral(digits: string, u: string, c: real, v: real, benchmark: real, float: string -> Option<real>)
    requires (u, c) in COEFF
    requires digits != [] && AllDigits(digits) && float(digits) == Some(v)
    ensures DelayValue(digits + u, benchmark, float) == Ok(Delay(Some(v * c)))
  {
    UnitTextScaled(digits, u, c, benchmark, float);
    UnflaggedScaled(digits, v, c, benchmark, float);
  }

  /** The same digits flagged with "~" are BENCHMARK times as long. */
  lemma BenchmarkedDelayOfNumeral(digits: string, u: string, c: real, v: real, benchmark: real, float: string -> Option<real>)
    requires (u, c) in COEFF
    requires digits != [] && AllDigits(digits) && float(digits) == Some(v)
    ensures DelayValue(BENCHMARKED_FLAG + digits + u, benchmark, float) == Ok(Delay(Some(v * (c * benchmark))))
  {
    var body := BENCHMARKED_FLAG + digits;
    assert body[|body| - 1] == digits[|digits| - 1];
    UnitTextScaled(body, u, c, benchmark, float);
    FlaggedScaled(digits, v, c, benchmark, float);
  }

  /** A text with a unit whose number float() refuses raises the "should
      contain a float value" exception naming the text before the unit. */
  lemma NonNumericRaises(body: string, u: string, c: real, benchmark: real, float: string -> Option<real>)
    requires (u, c) in COEFF
    requires body != [] && IsDigit(body[0]) && IsDigit(body[|body| - 1]) && float(body) == None
    ensures DelayValue(body + u, benchmark, float) == Err(IronbotException(NoFloatMessage(body)))
  {
    UnitTextScaled(body, u, c, benchmark, float);
    Unflagged(body, c, benchmark, float);
  }

  /** The same with the benchmark flag: the text after it is named. */
  lemma BenchmarkedNonNumericRaises(numeral: string, u: string, c: real, benchmark: real, float: string -> Option<real>)
    requires (u, c) in COEFF
    requires numeral != [] && IsDigit(numeral[|numeral| - 1]) && float(numeral) == None
    ensures DelayValue(BENCHMARKED_FLAG + numeral + u, benchmark, float) ==
            Err(IronbotException(NoFloatMessage(numeral)))
  {
    var body := BENCHMARKED_FLAG + numeral;
    assert body + u == BENCHMARKED_FLAG + numeral + u;
    UnitTextScaled(body, u, c, benchmark, float);
    assert ScaledDelay(body, c, benchmark, float) == NumberTimes(numeral, c * benchmark, float) by {
      assert StartsWith(body, BENCHMARKED_FLAG) && body[|BENCHMARKED_FLAG|..] == numeral;
    }
  }

  // ---------------------------------------------------------------------
  // Delay.__cmp__

  /** The right operand of a comparison with a Delay: a Delay, None or a number. */
  datatype Operand = OfDelay(d: Delay) | NoneOperand | Number(x: real)

  function OperandValue(sec: Operand): Option<real> {
    match sec
    case OfDelay(d) => d.value
    case NoneOperand => None
    case Number(x) => Some(x)
  }

  /** Delay.__cmp__(self, sec): -1, 0 or 1. */
  function Cmp(self: Delay, sec: Operand): (c: int)
    ensures -1 <= c <= 1
  {
    var other := OperandValue(sec);
    if other.None? then (if self.value.None? then 0 else -1)
    else if self.value.None? || self.value.value > other.value then 1
    else if self.value.value < other.value then -1
    else 0
  }

  /** The order __cmp__ is meant to implement: finite lengths by size, and
      forever (None) above all of them. */
  predicate AtMost(a: Option<real>, b: Option<real>) {
    b.None? || (a.Some? && a.value <= b.value)
  }

  /** __cmp__ agrees with that order. */
  lemma CmpIsOrder(self: Delay, sec: Operand)
    ensures Cmp(self, sec) <= 0 <==> AtMost(self.value, OperandValue(sec))
    ensures Cmp(self, sec) == 0 <==> self.value == OperandValue(sec)
  {
  }

  /** Swapping the operands negates the comparison. */
  lemma CmpAntisymmetric(a: Delay, b: Delay)
    ensures Cmp(a, OfDelay(b)) == -Cmp(b, OfDelay(a))
  {
  }

  /** Forever is the largest Delay, equal only to itself and to None. */
  lemma ForeverIsTop(sec: Operand)
    ensures Cmp(Delay(None), sec) >= 0
    ensures Cmp(Delay(None), sec) == 0 <==> OperandValue(sec).None?
  {
  }

  lemma CmpTransitive(a: Delay, b: Delay, c: Delay)
    requires Cmp(a, OfDelay(b)) <= 0 && Cmp(b, OfDelay(c)) <= 0
    ensures Cmp(a, OfDelay(c)) <= 0
  {
  }
}
