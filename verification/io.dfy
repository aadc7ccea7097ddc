/**
 * The checks and cleaning `read_metrics_weights` (`coclico/io.py`) applies
 * to a metric weights file once loaded: every metric must be a known one,
 * and spaces are removed from the class keys.
 */
module Io {
  import opened Wrappers
  import Texts
  import OrderedDicts

  type Dict<V> = OrderedDicts.Dict<V>

  /** The names of `METRICS` (`coclico/metrics/listing.py`). */
  const KnownMetrics: set<string> := {"mpap0", "mpla0", "malt0", "mobj0"}

  /** The class keys with their spaces removed, in order, each with its weight. */
  function CleanedPairs(classes: Dict<real>): (pairs: seq<(string, real)>)
    ensures |pairs| == |classes|
    ensures forall i :: 0 <= i < |classes| ==> pairs[i] == (Texts.RemoveSpaces(classes[i].0), classes[i].1)
  {
    seq(|classes|, i requires 0 <= i < |classes| => (Texts.RemoveSpaces(classes[i].0), classes[i].1))
  }

  /**
   * `{k.replace(" ", ""): v for k, v in value.items()}`: no key keeps a
   * space, and the keys are exactly the cleaned keys of the input.
   */
  function CleanClasses(classes: Dict<real>): (r: Dict<real>)
    ensures Texts.Distinct(OrderedDicts.Keys(r))
    ensures forall k :: k in OrderedDicts.Keys(r) ==> ' ' !in k
    ensures forall k :: k in OrderedDicts.Keys(r) <==> exists i :: 0 <= i < |classes| && Texts.RemoveSpaces(classes[i].0) == k
  {
    var pairs := CleanedPairs(classes);
    var r := OrderedDicts.FromPairs(pairs);
    assert forall k :: k in OrderedDicts.Keys(pairs) <==> exists i :: 0 <= i < |classes| && Texts.RemoveSpaces(classes[i].0) == k by {
      forall k | k in OrderedDicts.Keys(pairs)
        ensures exists i :: 0 <= i < |classes| && Texts.RemoveSpaces(classes[i].0) == k
      {
        var i :| 0 <= i < |pairs| && OrderedDicts.Keys(pairs)[i] == k;
        assert Texts.RemoveSpaces(classes[i].0) == k;
      }
      forall k | exists i :: 0 <= i < |classes| && Texts.RemoveSpaces(classes[i].0) == k
        ensures k in OrderedDicts.Keys(pairs)
      {
        var i :| 0 <= i < |classes| && Texts.RemoveSpaces(classes[i].0) == k;
        assert OrderedDicts.Keys(pairs)[i] == k;
      }
    }
    r
  }

  /**
   * Weights are unchanged: a class keeps its weight under its cleaned key,
   * unless a later class key cleans to the same key, whose weight then wins.
   */
  lemma CleanKeepsWeight(classes: Dict<real>, i: nat)
    requires i < |classes|
    requires forall j :: i < j < |classes| ==> Texts.RemoveSpaces(classes[j].0) != Texts.RemoveSpaces(classes[i].0)
    ensures Texts.RemoveSpaces(classes[i].0) in OrderedDicts.Keys(CleanClasses(classes))
    ensures OrderedDicts.Get(CleanClasses(classes), Texts.RemoveSpaces(classes[i].0)) == classes[i].1
  {
    OrderedDicts.FromPairsLast(CleanedPairs(classes), i);
  }

  /** Class keys without spaces come out unchanged, in the same order. */
  lemma CleanWithoutSpaces(classes: Dict<real>)
    requires Texts.Distinct(OrderedDicts.Keys(classes))
    requires forall i :: 0 <= i < |classes| ==> ' ' !in classes[i].0
    ensures CleanClasses(classes) == classes
  {
    var pairs := CleanedPairs(classes);
    forall i | 0 <= i < |classes| ensures pairs[i] == classes[i] {
      Texts.RemoveSpacesKeeps(classes[i].0);
    }
    assert pairs == classes;
    OrderedDicts.FromDistinctPairs(classes);
  }

  /** One class: its key loses its spaces. */
  lemma CleanOne(k: string, v: real)
    ensures CleanClasses([(k, v)]) == [(Texts.RemoveSpaces(k), v)]
  {
    var pairs := CleanedPairs([(k, v)]);
    assert pairs == [(Texts.RemoveSpaces(k), v)];
    assert pairs[..0] == [];
    calc {
      OrderedDicts.FromPairs(pairs);
      OrderedDicts.Put(OrderedDicts.FromPairs(pairs[..0]), Texts.RemoveSpaces(k), v);
      OrderedDicts.Put([], Texts.RemoveSpaces(k), v);
    }
  }

  /** Two class keys equal but for spaces: one key, the later weight. */
  lemma CleanCollision(k1: string, v1: real, k2: string, v2: real)
    requires Texts.RemoveSpaces(k1) == Texts.RemoveSpaces(k2)
    ensures CleanClasses([(k1, v1), (k2, v2)]) == [(Texts.RemoveSpaces(k1), v2)]
  {
    var k := Texts.RemoveSpaces(k1);
    var pairs := CleanedPairs([(k1, v1), (k2, v2)]);
    assert pairs == [(k, v1), (k, v2)];
    assert pairs[..1] == [(k, v1)];
    assert pairs[..1][..0] == [];
    assert OrderedDicts.FromPairs(pairs[..1]) == [(k, v1)];
    assert OrderedDicts.Keys([(k, v1)]) == [k];
  }

  /** The composed class key `"3 _ 4"` is written `"3_4"`; `"1"` and `" 1"` collide and keep the later weight. */
  lemma CleanExamples()
    ensures CleanClasses([("3 _ 4", 2.0)]) == [("3_4", 2.0)]
    ensures CleanClasses([("1", 1.0), (" 1", 3.0)]) == [("1", 3.0)]
  {
    SpacesExamples();
    CleanOne("3 _ 4", 2.0);
    CleanCollision("1", 1.0, " 1", 3.0);
  }

  lemma SpacesExamples()
    ensures Texts.RemoveSpaces("3 _ 4") == "3_4" && Texts.RemoveSpaces("1") == "1" && Texts.RemoveSpaces(" 1") == "1"
  {
    ComposedKeySpaces();
    Texts.RemoveSpacesCons('1', "");
    assert "1" == ['1'] + "";
    Texts.RemoveSpacesCons(' ', "1");
    assert " 1" == [' '] + "1";
  }

  lemma ComposedKeySpaces()
    ensures Texts.RemoveSpaces("3 _ 4") == "3_4"
  {
    SpacedPair('3', '_', '4');
    assert "3 _ 4" == ['3', ' ', '_', ' ', '4'] && "3_4" == ['3', '_', '4'];
  }

  /** A key `a b c` of three characters separated by spaces loses both spaces. */
  lemma SpacedPair(a: char, b: char, c: char)
    requires a != ' ' && b != ' ' && c != ' '
    ensures Texts.RemoveSpaces([a, ' ', b, ' ', c]) == [a, b, c]
  {
    Texts.RemoveSpacesCons(c, []);
    assert [c] + [] == [c];
    Texts.RemoveSpacesCons(' ', [c]);
    assert [' '] + [c] == [' ', c];
    Texts.RemoveSpacesCons(b, [' ', c]);
    assert [b] + [' ', c] == [b, ' ', c] && [b] + [c] == [b, c];
    Texts.RemoveSpacesCons(' ', [b, ' ', c]);
    assert [' '] + [b, ' ', c] == [' ', b, ' ', c];
    Texts.RemoveSpacesCons(a, [' ', b, ' ', c]);
    assert [a] + [' ', b, ' ', c] == [a, ' ', b, ' ', c] && [a] + [b, c] == [a, b, c];
  }

  /** The cleaned weights of every metric, in the order of the file. */
  function CleanedWeights(weights: Dict<Dict<real>>): (r: Dict<Dict<real>>)
    ensures |r| == |weights|
    ensures forall i :: 0 <= i < |weights| ==> r[i] == (weights[i].0, CleanClasses(weights[i].1))
  {
    seq(|weights|, i requires 0 <= i < |weights| => (weights[i].0, CleanClasses(weights[i].1)))
  }

  /**
   * `read_metrics_weights` once the YAML mapping is loaded (its metric names
   * are the keys of a mapping, hence distinct): `ValueError` unless every
   * metric name is a known one, then a new dictionary holding, in order,
   * each metric with its class weights cleaned.
   */
  method ReadMetricsWeights(weights: Dict<Dict<real>>) returns (r: Result<Dict<Dict<real>>, string>)
    requires Texts.Distinct(OrderedDicts.Keys(weights))
    ensures r.Success? <==> forall i :: 0 <= i < |weights| ==> weights[i].0 in KnownMetrics
    ensures r.Failure? ==> r.error == "ValueError"
    ensures r.Success? ==> OrderedDicts.Keys(r.value) == OrderedDicts.Keys(weights)
    ensures r.Success? ==> forall i :: 0 <= i < |weights| ==> r.value[i].1 == CleanClasses(weights[i].1)
  {
    if !(forall i :: 0 <= i < |weights| ==> weights[i].0 in KnownMetrics) {
      return Failure("ValueError");
    }
    var clean: Dict<Dict<real>> := [];
    var i := 0;
    while i < |weights|
      invariant 0 <= i <= |weights|
      invariant clean == CleanedWeights(weights)[..i]
    {
      var metric := weights[i].0;
      var metricDict := CleanClasses(weights[i].1);
      CleanedStep(weights, i);
      clean := OrderedDicts.Put(clean, metric, metricDict);
      i := i + 1;
    }
    assert clean == CleanedWeights(weights);
    return Success(clean);
  }

  /** A metric name not met before goes last. */
  lemma CleanedStep(weights: Dict<Dict<real>>, i: nat)
    requires Texts.Distinct(OrderedDicts.Keys(weights)) && i < |weights|
    ensures OrderedDicts.Put(CleanedWeights(weights)[..i], weights[i].0, CleanClasses(weights[i].1))
            == CleanedWeights(weights)[..i + 1]
  {
    var prefix := CleanedWeights(weights)[..i];
    assert weights[i].0 !in OrderedDicts.Keys(prefix) by {
      assert forall j :: 0 <= j < i ==> OrderedDicts.Keys(prefix)[j] == OrderedDicts.Keys(weights)[j];
    }
    assert CleanedWeights(weights)[..i + 1] == prefix + [(weights[i].0, CleanClasses(weights[i].1))];
  }
}
