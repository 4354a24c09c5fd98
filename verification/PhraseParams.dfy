/** The array of used parameters, which has 32 entries: which of them a translation makes the reader look at. */
module PhraseParams {
  import opened PhraseFormat
  import opened PhraseBounds

  /** The entry that the brace at i makes the reader look at. */
  function Looked(v: string, i: nat, list: seq<string>): Option<nat>
    requires i < |v|
  {
    var j := Closing(v, i + 1);
    if j.None? || j.value <= i + 1 || j.value > |v| then None
    else
      var k := Strtol(v[i + 1..j.value]);
      if k < 1 || k > |list| then None else Some((k - 1) as nat)
  }

  /** From position i on the reader looks at the first n entries only. */
  predicate StaysIn(v: string, i: nat, list: Option<seq<string>>, order: seq<nat>, n: nat)
    decreases |v| - i
  {
    if i >= |v| then true
    else if v[i] == '\\' then
      if i + 1 < |v| && Known(v[i + 1]) then StaysIn(v, i + 2, list, order, n)
      else if i + 2 >= |v| then true
      else StaysIn(v, i + 3, list, order, n)
    else if v[i] == '{' && list.Some? then
      && (Looked(v, i, list.value).Some? ==> Looked(v, i, list.value).value < n)
      && match Param(v, i, list.value, order)
         case None => StaysIn(v, i + 1, list, order, n)
         case Some((k, j)) => j >= i ==> StaysIn(v, j + 1, list, order + [k], n)
    else StaysIn(v, i + 1, list, order, n)
  }

  lemma StaysUnfolds(v: string, i: nat, list: Option<seq<string>>, order: seq<nat>, n: nat)
    requires i < |v| && StaysIn(v, i, list, order, n)
    ensures v[i] != '\\' && (v[i] != '{' || list.None?) ==> StaysIn(v, i + 1, list, order, n)
    ensures v[i] == '\\' && i + 1 < |v| && Known(v[i + 1]) ==> StaysIn(v, i + 2, list, order, n)
    ensures v[i] == '\\' && !(i + 1 < |v| && Known(v[i + 1])) && i + 2 < |v| ==> StaysIn(v, i + 3, list, order, n)
    ensures v[i] == '{' && list.Some? && Looked(v, i, list.value).Some? ==> Looked(v, i, list.value).value < n
    ensures v[i] == '{' && list.Some? && Param(v, i, list.value, order).None? ==> StaysIn(v, i + 1, list, order, n)
    ensures v[i] == '{' && list.Some? && Param(v, i, list.value, order).Some? ==>
      var (k, j) := Param(v, i, list.value, order).value; StaysIn(v, j + 1, list, order + [k], n)
  {
    hide Looked, Param;
    if v[i] == '{' && list.Some? && Param(v, i, list.value, order).Some? {
      ParamWithin(v, i, list.value, order);
    }
  }

  lemma LookedWithin(v: string, i: nat, list: seq<string>)
    requires i < |v| && Looked(v, i, list).Some?
    ensures Looked(v, i, list).value < |list|
  {
  }

  /** A parameter that goes in is the one looked at. */
  lemma ParamLooked(v: string, i: nat, list: seq<string>, order: seq<nat>)
    requires i < |v| && Param(v, i, list, order).Some?
    ensures Looked(v, i, list) == Some(Param(v, i, list, order).value.0)
  {
  }

  lemma {:induction false} ShortStays(v: string, i: nat, list: Option<seq<string>>, order: seq<nat>, n: nat)
    requires |Strings(list)| <= n
    ensures StaysIn(v, i, list, order, n)
    decreases |v| - i
  {
    hide Looked, Param;
    if i < |v| {
      ShortStays(v, i + 1, list, order, n);
      ShortStays(v, i + 2, list, order, n);
      ShortStays(v, i + 3, list, order, n);
      if list.Some? {
        if Looked(v, i, list.value).Some? { LookedWithin(v, i, list.value); }
        if Param(v, i, list.value, order).Some? {
          ParamWithin(v, i, list.value, order);
          var (k, j) := Param(v, i, list.value, order).value;
          ShortStays(v, j + 1, list, order + [k], n);
        }
      }
    }
  }

  /** The parameter 33 of a longer list lies behind the array. */
  lemma ThirtyThree(list: seq<string>)
    requires |list| > MAX_TRANSLATE_PARAMS
    ensures !StaysIn("{33}", 0, Some(list), [], MAX_TRANSLATE_PARAMS)
  {
    var v := "{33}";
    assert v[0] == '{' && v[1] == '3' && v[2] == '3' && v[3] == '}';
    assert Closing(v, 3) == Some(3) && Closing(v, 2) == Some(3) && Closing(v, 1) == Some(3);
    assert v[1..3] == "33";
    Value33();
    assert Looked(v, 0, list) == Some(32);
  }

  lemma Value33()
    ensures Strtol("33") == 33
  {
    var s := "33";
    assert SkipSpaces(s) == s;
    assert s[1..] == "3" && "3"[1..] == "";
    assert LeadingDigits("") == "" && LeadingDigits("3") == "3";
    assert LeadingDigits(s) == "33";
    assert s[..1] == "3" && "3"[..0] == "";
    assert DigitsValue("") == 0 && DigitsValue("3") == 3;
    assert DigitsValue(s) == 33;
  }

  /** Every translation keeps within the array exactly for lists of at most 32 formats. */
  lemma ParamsExact(list: Option<seq<string>>)
    ensures (forall v :: StaysIn(v, 0, list, [], MAX_TRANSLATE_PARAMS)) <==> |Strings(list)| <= MAX_TRANSLATE_PARAMS
  {
    if |Strings(list)| <= MAX_TRANSLATE_PARAMS {
      forall v
        ensures StaysIn(v, 0, list, [], MAX_TRANSLATE_PARAMS) { ShortStays(v, 0, list, [], MAX_TRANSLATE_PARAMS); }
    } else {
      ThirtyThree(list.value);
    }
  }
}
