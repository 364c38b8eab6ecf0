/**
 * The app's reading of `GET /model_precision`: the decoded report and the
 * four rows the charts show.
 */
module ModelPrecision {
  import opened Wrappers
  import opened Json
  import opened SwiftJson

  /** One row of the report. The JSON name of `f1Score` is "f1-score". */
  datatype ClassStats = ClassStats(f1Score: real, precision: real, recall: real, support: int)

  /** The report. The JSON name of `perClass` is "per_class". */
  datatype ModelPrecision = ModelPrecision(accuracy: real, aggregates: map<string, real>, perClass: map<string, ClassStats>)

  /** A statistics object the client can read: four numbers, the support a whole one. */
  predicate ReadableStats(v: Value)
  {
    && v.Object?
    && IsNumber(GetOrNull(v.members, "f1-score"))
    && IsNumber(GetOrNull(v.members, "precision"))
    && IsNumber(GetOrNull(v.members, "recall"))
    && IsSwiftInt(GetOrNull(v.members, "support"))
  }

  /** The synthesized `ClassStats.init(from:)`, in declaration order. */
  function DecodeClassStats(v: Value): (r: Result<ClassStats, DecodeError>)
    ensures r.Ok? <==> ReadableStats(v)
    ensures r.Ok? ==> InInt64(r.value.support)
    ensures r.Ok? ==>
      && DecodeDouble(GetOrNull(v.members, "f1-score")) == Ok(r.value.f1Score)
      && DecodeDouble(GetOrNull(v.members, "precision")) == Ok(r.value.precision)
      && DecodeDouble(GetOrNull(v.members, "recall")) == Ok(r.value.recall)
      && DecodeInt(GetOrNull(v.members, "support")) == Ok(r.value.support)
  {
    if !v.Object? then Err(TypeMismatch)
    else
      var ms := v.members;
      var f1 :- DecodeKey(ms, "f1-score", DecodeDouble);
      var precision :- DecodeKey(ms, "precision", DecodeDouble);
      var recall :- DecodeKey(ms, "recall", DecodeDouble);
      var support :- DecodeKey(ms, "support", DecodeInt);
      Ok(ClassStats(f1, precision, recall, support))
  }

  /** The synthesized `ModelPrecision.init(from:)`, in declaration order. */
  function DecodeModelPrecision(v: Value): (r: Result<ModelPrecision, DecodeError>)
    ensures r.Ok? <==>
      && v.Object?
      && IsNumber(GetOrNull(v.members, "accuracy"))
      && DecodeDictionary(GetOrNull(v.members, "aggregates"), DecodeDouble).Ok?
      && DecodeDictionary(GetOrNull(v.members, "per_class"), DecodeClassStats).Ok?
    ensures r.Ok? ==>
      && DecodeDouble(GetOrNull(v.members, "accuracy")) == Ok(r.value.accuracy)
      && DecodeDictionary(GetOrNull(v.members, "aggregates"), DecodeDouble) == Ok(r.value.aggregates)
      && DecodeDictionary(GetOrNull(v.members, "per_class"), DecodeClassStats) == Ok(r.value.perClass)
  {
    if !v.Object? then Err(TypeMismatch)
    else
      var ms := v.members;
      var accuracy :- DecodeKey(ms, "accuracy", DecodeDouble);
      var aggregates :- DecodeKey(ms, "aggregates", v => DecodeDictionary(v, DecodeDouble));
      var perClass :- DecodeKey(ms, "per_class", v => DecodeDictionary(v, DecodeClassStats));
      Ok(ModelPrecision(accuracy, aggregates, perClass))
  }

  /** The row stored under `className`, if the report has one. */
  function Row(m: ModelPrecision, className: string): (r: Option<ClassStats>)
    ensures r.Some? <==> className in m.perClass
    ensures r.Some? ==> r.value == m.perClass[className]
  {
    if className in m.perClass then Some(m.perClass[className]) else None
  }

  function Confirmed(m: ModelPrecision): Option<ClassStats> { Row(m, "CONFIRMED") }

  function FalsePositive(m: ModelPrecision): Option<ClassStats> { Row(m, "FALSE POSITIVE") }

  function MacroAvg(m: ModelPrecision): Option<ClassStats> { Row(m, "macro avg") }

  function WeightedAvg(m: ModelPrecision): Option<ClassStats> { Row(m, "weighted avg") }

  /**
   * The four accessors read four different rows of `perClass`; the averages
   * are rows of `perClass` too, not of `aggregates`.
   */
  lemma AccessorsReadPerClass(m: ModelPrecision, s: ClassStats)
    ensures Confirmed(m.(perClass := m.perClass["CONFIRMED" := s])) == Some(s)
    ensures FalsePositive(m.(perClass := m.perClass["FALSE POSITIVE" := s])) == Some(s)
    ensures MacroAvg(m.(perClass := m.perClass["macro avg" := s])) == Some(s)
    ensures WeightedAvg(m.(perClass := m.perClass["weighted avg" := s])) == Some(s)
    ensures "CONFIRMED" !in m.perClass ==> Confirmed(m.(aggregates := m.aggregates["CONFIRMED" := 1.0])) == None
    ensures FalsePositive(m.(perClass := m.perClass["CONFIRMED" := s])) == FalsePositive(m)
  {
  }

  /** The statistics are read under "f1-score": an object spelling it `f1Score` is refused. */
  lemma F1ScoreKeyIsHyphenated(p: real, r: real, f: real, n: int)
    ensures DecodeClassStats(Object([Member("f1Score", Float(f)), Member("precision", Float(p)),
      Member("recall", Float(r)), Member("support", Int(n))])) == Err(KeyNotFound("f1-score"))
  {
    var ms := [Member("f1Score", Float(f)), Member("precision", Float(p)), Member("recall", Float(r)), Member("support", Int(n))];
    assert Keys(ms) == ["f1Score", "precision", "recall", "support"];
  }

  /** The rows are read under "per_class": a report spelling it `perClass` is refused. */
  lemma PerClassKeyIsSnakeCase(acc: real)
    ensures DecodeModelPrecision(Object([Member("accuracy", Float(acc)), Member("aggregates", Object([])),
      Member("perClass", Object([]))])) == Err(KeyNotFound("per_class"))
  {
    var ms := [Member("accuracy", Float(acc)), Member("aggregates", Object([])), Member("perClass", Object([]))];
    assert Keys(ms) == ["accuracy", "aggregates", "perClass"];
    assert DecodeDictionary(Object([]), DecodeDouble).Ok?;
    MissingPerClass(ms);
  }

  lemma MissingPerClass(ms: seq<Member>)
    requires "per_class" !in Keys(ms)
    requires IsNumber(GetOrNull(ms, "accuracy")) && DecodeDictionary(GetOrNull(ms, "aggregates"), DecodeDouble).Ok?
    ensures DecodeModelPrecision(Object(ms)) == Err(KeyNotFound("per_class"))
  {
    assert "accuracy" in Keys(ms) && "aggregates" in Keys(ms);
  }
}
