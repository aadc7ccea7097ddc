/**
 * MPAP0 intrinsic metric (`coclico/mpap0/mpap0_intrinsic.py`): the point
 * counts pdal reports per classification value, regrouped by the class keys
 * of the weights, a composed key such as `"3,4,5"` summing the counts of its
 * elementary classes.
 */
module Mpap0Intrinsic {
  import opened Wrappers
  import Texts

  /** Point counts by elementary class, as parsed from pdal's statistics. */
  type PointCounts = map<string, int>

  /** `points_counts.get(k, 0)`. */
  function CountOf(points: PointCounts, k: string): int {
    if k in points then points[k] else 0
  }

  /**
   * How a pdal classification value (a float printed with six decimals, such
   * as `"1.000000"`) becomes a class key: the text before its first `.`
   * (`value.split(".")[0]`), or the decimal text of its integer part
   * (`str(int(float(value)))`).
   */
  datatype KeyRule = BeforeDot | IntOfFloat

  /**
   * `str(int(float(value)))`: once the surrounding whitespace is stripped,
   * an optional sign, the digits of the integer part and, after an optional
   * `.`, the digits of the fraction, with at least one digit in all (`"1."`
   * and `".5"` are floats). `int` truncates toward zero, which keeps the
   * integer part, and `-0` prints as `0`. Any other text raises `ValueError`
   * (`None`).
   */
  function FloatKey(value: string): (k: Option<string>)
    ensures k.Some? ==> Texts.ParseInt(k.value).Some? && k.value == Texts.Decimal(Texts.ParseInt(k.value).value)
  {
    var parts := Texts.Split(Texts.Strip(value), '.');
    if |parts| > 2 then None
    else
      match IntegerPart(parts[0], if |parts| == 2 then parts[1] else "")
      case None => None
      case Some(v) => Texts.ParseDecimal(v); Some(Texts.Decimal(v))
  }

  /** The integer part of the float literal `whole.frac`, `None` unless it is one. */
  function IntegerPart(whole: string, frac: string): Option<int> {
    var signed := |whole| > 0 && (whole[0] == '-' || whole[0] == '+');
    var digits := if signed then whole[1..] else whole;
    if !Texts.AllDigits(digits) || !Texts.AllDigits(frac) || |digits| + |frac| == 0 then None
    else
      var n: int := Texts.DigitsValue(digits);
      Some(if signed && whole[0] == '-' then -n else n)
  }

  /** A stripped value with one `.` is read from its two sides. */
  lemma FloatKeyOfParts(value: string, whole: string, frac: string)
    requires '.' !in whole && '.' !in frac && Texts.Strip(value) == whole + ['.'] + frac
    ensures FloatKey(value) == if IntegerPart(whole, frac).Some? then Some(Texts.Decimal(IntegerPart(whole, frac).value)) else None
  {
    Texts.SplitAt(whole, frac, '.');
    Texts.SplitWithoutSeparator(frac, '.');
  }

  /** The integer part of `str(n)` followed by a fraction is `n`. */
  lemma IntegerPartOfDecimal(n: int, frac: string)
    requires Texts.AllDigits(frac)
    ensures IntegerPart(Texts.Decimal(n), frac) == Some(n)
  {
    var m: nat := if n < 0 then -n else n;
    Texts.DigitsRoundTrip(m);
    if n < 0 {
      assert Texts.Decimal(n)[1..] == Texts.NatDigits(m);
    }
  }

  function ClassOf(rule: KeyRule, value: string): Option<string> {
    match rule
    case BeforeDot => Some(Texts.Split(value, '.')[0])
    case IntOfFloat => FloatKey(value)
  }

  /**
   * One pdal count entry `"<value>/<count>"`: the class key read from the
   * value by the rule, and the count `int(count)`. An entry that does not
   * split into exactly two parts on `/`, whose value is not read, or whose
   * count is not an integer literal raises `ValueError`.
   */
  function ParseEntry(raw: string, rule: KeyRule): (r: Result<(string, int), string>)
    ensures |Texts.Split(raw, '/')| != 2 ==> r == Failure("ValueError")
    ensures r.Success? && rule == BeforeDot ==> '.' !in r.value.0
    ensures r.Failure? ==> r.error == "ValueError"
  {
    var parts := Texts.Split(raw, '/');
    if |parts| != 2 then Failure("ValueError")
    else
      var k, n := ClassOf(rule, parts[0]), Texts.ParseInt(parts[1]);
      if k.Some? && n.Some? then Success((k.value, n.value)) else Failure("ValueError")
  }

  /** The rendering of an integer holds only digits and a minus sign. */
  lemma {:induction false} DecimalPlain(n: int)
    ensures '/' !in Texts.Decimal(n) && '.' !in Texts.Decimal(n)
  {
    var d := Texts.NatDigits(if n < 0 then -n else n);
    assert forall k :: 0 <= k < |d| ==> d[k] != '/' && d[k] != '.';
  }

  /**
   * An entry as pdal writes it, a class value with a fractional part and a
   * count: parsing gives back the class value's integer text and the count.
   */
  lemma EntryRoundTrip(v: string, frac: string, n: nat)
    requires '.' !in v && '/' !in v && '/' !in frac
    ensures ParseEntry(v + "." + frac + "/" + Texts.Decimal(n), BeforeDot) == Success((v, n))
  {
    var a := v + "." + frac;
    var d := Texts.Decimal(n);
    assert v + "." + frac + "/" + d == a + ['/'] + d;
    assert '/' !in a by {
      assert forall k :: 0 <= k < |a| ==> a[k] == (if k < |v| then v[k] else if k == |v| then '.' else frac[k - |v| - 1]);
    }
    DecimalPlain(n);
    Texts.SplitAt(a, d, '/');
    Texts.SplitWithoutSeparator(d, '/');
    assert a == v + ['.'] + frac;
    Texts.SplitAt(v, frac, '.');
    Texts.ParseDecimal(n);
  }

  /**
   * A class value printed as an integer and a fractional part of digits,
   * with any whitespace around it, is read back as the integer's text, so
   * `"1.000000"` and `"1.5 "` give `"1"`.
   */
  lemma FloatKeyRoundTrip(n: int, frac: string, lead: string, trail: string)
    requires Texts.AllDigits(frac) && Texts.AllSpace(lead) && Texts.AllSpace(trail)
    ensures FloatKey(lead + Texts.Decimal(n) + "." + frac + trail) == Some(Texts.Decimal(n))
  {
    var d := Texts.Decimal(n);
    DecimalPlain(n);
    assert '.' !in frac by {
      assert forall k :: 0 <= k < |frac| ==> frac[k] != '.';
    }
    var s := d + ['.'] + frac;
    assert s[0] == d[0] && (s[|s| - 1] == '.' || s[|s| - 1] == frac[|frac| - 1]);
    assert lead + d + "." + frac + trail == lead + s + trail;
    Texts.StripAround(lead, s, trail);
    FloatKeyOfParts(lead + s + trail, d, frac);
    IntegerPartOfDecimal(n, frac);
  }

  /** A fraction without integer part, such as `".5"`, is a float whose integer part is 0. */
  lemma FloatKeyFraction(frac: string)
    requires Texts.AllDigits(frac) && |frac| > 0
    ensures FloatKey("." + frac) == Some("0")
  {
    var s := [] + ['.'] + frac;
    assert "." + frac == s;
    assert s[|s| - 1] == frac[|frac| - 1];
    Texts.StripIdentity(s);
    assert '.' !in frac by {
      assert forall k :: 0 <= k < |frac| ==> frac[k] != '.';
    }
    FloatKeyOfParts(s, [], frac);
    assert Texts.NatDigits(0) == "0";
  }

  /** Whitespace inside the literal, as in `"1 .5"`, is no float: `ValueError`. */
  lemma FloatKeyInnerSpace(n: int, sp: char, frac: string)
    requires Texts.IsSpace(sp) && Texts.AllDigits(frac)
    ensures FloatKey(Texts.Decimal(n) + [sp] + "." + frac) == None
  {
    var d := Texts.Decimal(n);
    DecimalPlain(n);
    var whole := d + [sp];
    assert '.' !in frac by {
      assert forall k :: 0 <= k < |frac| ==> frac[k] != '.';
    }
    assert '.' !in whole by {
      assert forall k :: 0 <= k < |whole| ==> whole[k] == (if k < |d| then d[k] else sp);
    }
    var s := whole + ['.'] + frac;
    assert Texts.Decimal(n) + [sp] + "." + frac == s;
    assert s[0] == d[0] && (s[|s| - 1] == '.' || s[|s| - 1] == frac[|frac| - 1]);
    Texts.StripIdentity(s);
    FloatKeyOfParts(s, whole, frac);
    IntegerPartSpace(whole, frac);
  }

  lemma IntegerPartSpace(whole: string, frac: string)
    requires |whole| >= 2 && Texts.IsSpace(whole[|whole| - 1])
    ensures IntegerPart(whole, frac) == None
  {
    var digits := if whole[0] == '-' || whole[0] == '+' then whole[1..] else whole;
    assert digits[|digits| - 1] == whole[|whole| - 1];
  }

  /** Every entry parses. */
  predicate AllParse(raw: seq<string>, rule: KeyRule) {
    forall i :: 0 <= i < |raw| ==> ParseEntry(raw[i], rule).Success?
  }

  /** A parsed entry: a class key and its count, or the error its parsing raised. */
  type Entry = Result<(string, int), string>

  predicate AllSucceed(entries: seq<Entry>) {
    forall i :: 0 <= i < |entries| ==> entries[i].Success?
  }

  /**
   * `dict({k: n for k, n in entries})`: when a class occurs in several
   * entries, the last one wins; the first entry that failed to parse raises
   * its error.
   */
  function Collect(entries: seq<Entry>): (r: Result<PointCounts, string>)
    ensures r.Success? <==> AllSucceed(entries)
    ensures r.Failure? ==> exists i :: 0 <= i < |entries| && entries[i] == Failure(r.error)
  {
    if |entries| == 0 then Success(map[])
    else
      var n := |entries| - 1;
      var init := entries[..n];
      assert forall i :: 0 <= i < n ==> init[i] == entries[i];
      match Collect(init)
      case Failure(e) => Failure(e)
      case Success(points) =>
        match entries[n]
        case Failure(e) => Failure(e)
        case Success(entry) => Success(points[entry.0 := entry.1])
  }

  /** The dictionary of a non-empty entry list is that of all but the last entry, updated by the last. */
  lemma CollectStep(entries: seq<Entry>)
    requires AllSucceed(entries) && |entries| > 0
    ensures var n := |entries| - 1; var e := entries[n].value;
      && AllSucceed(entries[..n])
      && Collect(entries) == Success(Collect(entries[..n]).value[e.0 := e.1])
  {
    var n := |entries| - 1;
    assert forall j :: 0 <= j < n ==> entries[..n][j] == entries[j];
  }

  /**
   * Last one wins: an entry whose class no later entry repeats gives that
   * class its count.
   */
  lemma {:induction false} CollectLastWins(entries: seq<Entry>, i: nat)
    requires AllSucceed(entries) && i < |entries|
    requires forall j :: i < j < |entries| ==> entries[j].value.0 != entries[i].value.0
    ensures var e := entries[i].value;
      e.0 in Collect(entries).value && Collect(entries).value[e.0] == e.1
  {
    var n := |entries| - 1;
    CollectStep(entries);
    if i < n {
      var init := entries[..n];
      assert init[i] == entries[i];
      assert forall j :: i < j < n ==> init[j] == entries[j];
      CollectLastWins(init, i);
    }
  }

  /** Every class of the dictionary comes from an entry, with that entry's count. */
  lemma {:induction false} CollectFrom(entries: seq<Entry>, k: string)
    requires AllSucceed(entries) && k in Collect(entries).value
    ensures exists i :: 0 <= i < |entries| && entries[i].value == (k, Collect(entries).value[k])
  {
    var n := |entries| - 1;
    var init := entries[..n];
    CollectStep(entries);
    if entries[n].value.0 != k {
      CollectFrom(init, k);
      var i :| 0 <= i < n && init[i].value == (k, Collect(init).value[k]);
      assert init[i] == entries[i];
    }
  }

  function ParseAll(raw: seq<string>, rule: KeyRule): (entries: seq<Entry>)
    ensures |entries| == |raw|
    ensures forall i :: 0 <= i < |raw| ==> entries[i] == ParseEntry(raw[i], rule)
  {
    seq(|raw|, i requires 0 <= i < |raw| => ParseEntry(raw[i], rule))
  }

  /**
   * `points_counts`: the dictionary of pdal's parsed count entries. Any entry
   * that does not parse raises `ValueError`.
   */
  function PointsCounts(raw: seq<string>, rule: KeyRule): (r: Result<PointCounts, string>)
    ensures r.Success? <==> AllParse(raw, rule)
    ensures r.Failure? ==> r.error == "ValueError"
  {
    Collect(ParseAll(raw, rule))
  }

  /** The sum of the counts of the stripped tokens, a token with no count adding 0. */
  function SumTokens(points: PointCounts, tokens: seq<string>): (n: int)
    ensures (forall k :: k in points ==> points[k] >= 0) ==> n >= 0
  {
    if |tokens| == 0 then 0 else CountOf(points, Texts.Strip(tokens[0])) + SumTokens(points, tokens[1..])
  }

  /**
   * `merge_counts`: the class key split on `,`, each token stripped of its
   * whitespace; the count of the key is the sum of the counts of its tokens.
   */
  function MergeCounts(points: PointCounts, classKey: string): (n: int)
    ensures (forall k :: k in points ==> points[k] >= 0) ==> n >= 0
  {
    SumTokens(points, Texts.Split(classKey, ','))
  }

  /** A key without `,` counts the points of its one (stripped) class, 0 when pdal saw none. */
  lemma MergeSingle(points: PointCounts, classKey: string)
    requires ',' !in classKey
    ensures MergeCounts(points, classKey) == CountOf(points, Texts.Strip(classKey))
    ensures Texts.Strip(classKey) !in points ==> MergeCounts(points, classKey) == 0
  {
    Texts.SplitWithoutSeparator(classKey, ',');
    SumOneToken(points, classKey);
  }

  lemma SumOneToken(points: PointCounts, token: string)
    ensures SumTokens(points, [token]) == CountOf(points, Texts.Strip(token))
  {
    var tokens := [token];
    assert tokens[1..] == [];
  }

  /** A composed key counts its first class plus the rest of the key. */
  lemma MergeComposed(points: PointCounts, first: string, rest: string)
    requires ',' !in first
    ensures MergeCounts(points, first + "," + rest) == CountOf(points, Texts.Strip(first)) + MergeCounts(points, rest)
  {
    assert first + "," + rest == first + [','] + rest;
    Texts.SplitAt(first, rest, ',');
  }

  /**
   * The counts pdal reports in the intrinsic test: no point of class 0, and
   * 543, 1625, 3145 and 31074 points of classes 1, 3, 4 and 5.
   */
  predicate TestCounts(points: PointCounts, zero: string, one: string, three: string, four: string, five: string) {
    && Digit(zero, '0') && Digit(one, '1') && Digit(three, '3') && Digit(four, '4') && Digit(five, '5')
    && zero !in points && CountOf(points, one) == 543
    && CountOf(points, three) == 1625 && CountOf(points, four) == 3145 && CountOf(points, five) == 31074
  }

  /** `s` is the one-character string of digit `d`. */
  predicate Digit(s: string, d: char) {
    |s| == 1 && s[0] == d
  }

  /** The simple keys of the intrinsic test: a class without points counts 0. */
  lemma MergeSimpleExample(points: PointCounts, zero: string, one: string, three: string, four: string, five: string)
    requires TestCounts(points, zero, one, three, four, five)
    ensures MergeCounts(points, zero) == 0
    ensures MergeCounts(points, one) == 543
  {
    assert MergeCounts(points, zero) == 0 by {
      Texts.StripPadded(zero);
      MergeSingle(points, zero);
    }
    assert MergeCounts(points, one) == 543 by {
      Texts.StripPadded(one);
      MergeSingle(points, one);
    }
  }

  /** The composed key `"3,4,5"` of the intrinsic test sums its three classes. */
  lemma MergeComposedExample(points: PointCounts, zero: string, one: string, three: string, four: string, five: string)
    requires TestCounts(points, zero, one, three, four, five)
    ensures MergeCounts(points, three + "," + four + "," + five) == 1625 + 3145 + 31074
  {
    var rest := four + "," + five;
    MergePairExample(points, zero, one, three, four, five);
    Texts.StripPadded(three);
    MergeComposed(points, three, rest);
    Regroup(three, four, five);
  }

  /** The composed key `"4,5"`. */
  lemma MergePairExample(points: PointCounts, zero: string, one: string, three: string, four: string, five: string)
    requires TestCounts(points, zero, one, three, four, five)
    ensures MergeCounts(points, four + "," + five) == 3145 + 31074
  {
    DigitKey(four, '4');
    DigitKey(five, '5');
    MergePair(points, four, five);
  }

  /** A one-digit class key holds no `,` and nothing to strip. */
  lemma DigitKey(s: string, d: char)
    requires Digit(s, d) && Texts.IsDigit(d)
    ensures ',' !in s && Texts.Strip(s) == s
  {
    assert s == [d];
    Texts.StripPadded(s);
  }

  /** Two classes without `,` joined by a `,` count the points of both. */
  lemma MergePair(points: PointCounts, a: string, b: string)
    requires ',' !in a && ',' !in b
    ensures MergeCounts(points, a + "," + b) == CountOf(points, Texts.Strip(a)) + CountOf(points, Texts.Strip(b))
  {
    MergeSingle(points, b);
    MergeComposed(points, a, b);
  }

  lemma Regroup(a: string, b: string, c: string)
    ensures a + "," + (b + "," + c) == a + "," + b + "," + c
  {
    Assoc(a + ",", b + ",", c);
    Assoc(a + ",", b, ",");
  }

  /** The composed key `"3 , 4"` of the intrinsic test: the spaces around the comma are stripped. */
  lemma MergeSpacedExample(points: PointCounts, zero: string, one: string, three: string, four: string, five: string)
    requires TestCounts(points, zero, one, three, four, five)
    ensures MergeCounts(points, three + " " + "," + " " + four) == 1625 + 3145
  {
    var a, b := three + " ", " " + four;
    assert MergeCounts(points, b) == 3145 by {
      Texts.StripPadded(four);
      MergeSingle(points, b);
    }
    assert MergeCounts(points, a + "," + b) == 1625 + 3145 by {
      Texts.StripPadded(three);
      MergeComposed(points, a, b);
    }
    Assoc(a + ",", " ", four);
  }

  lemma Assoc(a: string, b: string, c: string)
    ensures a + (b + c) == a + b + c
  {
  }

  /**
   * `out_counts`: one count per class key of the weights, and no other key.
   * When no count is negative, no output is.
   */
  function OutCounts(points: PointCounts, classKeys: seq<string>): (out: map<string, int>)
    ensures forall k :: k in out <==> k in classKeys
    ensures forall k :: k in out ==> out[k] == MergeCounts(points, k)
    ensures (forall k :: k in points ==> points[k] >= 0) ==> forall k :: k in out ==> out[k] >= 0
  {
    map k | k in classKeys :: MergeCounts(points, k)
  }

  /**
   * `compute_metric_intrinsic_mpap0` without the pdal pipeline and the JSON
   * file: from pdal's raw count entries to the counts of the weights' class keys.
   */
  function ComputeMetricIntrinsic(raw: seq<string>, classKeys: seq<string>): (r: Result<map<string, int>, string>)
    ensures r.Success? <==> AllParse(raw, BeforeDot)
    ensures r.Success? ==> forall k :: k in r.value <==> k in classKeys
  {
    var points :- PointsCounts(raw, BeforeDot);
    Success(OutCounts(points, classKeys))
  }

}
