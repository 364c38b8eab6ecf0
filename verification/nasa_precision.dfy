/**
 * `GET /model_precision`: the server splits the classification report of the
 * trained model into per-class statistics and aggregate values.
 *
 * The report is a JSON object; an entry is a class entry when its value is
 * itself an object with a "precision" key. Class entries have their four
 * statistics converted to numbers; when a conversion raises, the entry is
 * kept as it was. Every other entry is copied to the aggregates untouched.
 */
module NasaPrecision {
  import opened Wrappers
  import opened Text
  import opened Json
  import opened Py
  import opened NasaEntries

  /** `isinstance(v, dict) and 'precision' in v`. */
  predicate IsClassEntry(v: Value)
  {
    v.Object? && "precision" in Keys(v.members)
  }

  predicate IsClassMember(m: Member) { IsClassEntry(m.value) }

  predicate IsAggregateMember(m: Member) { !IsClassEntry(m.value) }

  /** `float(x) if x is not None else None`; `None` where `float()` raises. */
  function OptFloat(conv: Conversions, x: Value): (r: Option<Value>)
    ensures r.Some? ==> r.value.Null? || r.value.Float?
    ensures x.Null? ==> r == Some(Null)
  {
    if x.Null? then Some(Null)
    else match ToFloat(conv, x)
      case Some(f) => Some(Float(f))
      case None => None
  }

  /** `int(x) if x is not None else None`; `None` where `int()` raises. */
  function OptInt(conv: Conversions, x: Value): (r: Option<Value>)
    ensures r.Some? ==> r.value.Null? || r.value.Int?
    ensures x.Null? ==> r == Some(Null)
  {
    if x.Null? then Some(Null)
    else match ToInt(conv, x)
      case Some(i) => Some(Int(i))
      case None => None
  }

  /** The names of the four statistics, in the order the server writes them. */
  const StatKeys: seq<string> := ["precision", "recall", "f1-score", "support"]

  /**
   * The converted statistics of a class entry; `None` when one of the four
   * conversions raises. A statistic the entry lacks reads as `None`.
   */
  function ConvertStats(conv: Conversions, stats: seq<Member>): (r: Option<seq<Member>>)
    ensures r.Some? ==> Keys(r.value) == StatKeys
  {
    match (OptFloat(conv, GetOrNull(stats, "precision")), OptFloat(conv, GetOrNull(stats, "recall")),
           OptFloat(conv, GetOrNull(stats, "f1-score")), OptInt(conv, GetOrNull(stats, "support")))
    case (Some(p), Some(r), Some(f), Some(s)) =>
      Some([Member("precision", p), Member("recall", r), Member("f1-score", f), Member("support", s)])
    case _ => None
  }

  /** Statistics that are numbers or missing always convert. */
  lemma NumbersConvert(conv: Conversions, stats: seq<Member>)
    requires forall k :: k in StatKeys ==> var v := GetOrNull(stats, k); v.Null? || v.Int? || v.Float?
    ensures ConvertStats(conv, stats).Some?
  {
    assert "precision" in StatKeys && "recall" in StatKeys && "f1-score" in StatKeys && "support" in StatKeys;
  }

  /** What `per_class` holds for a class entry. */
  function ClassValue(conv: Conversions, v: Value): Value
    requires v.Object?
  {
    match ConvertStats(conv, v.members)
    case Some(stats) => Object(stats)
    case None => v
  }

  /** `per_class` after the loop has visited `cr`. */
  function PerClassOf(conv: Conversions, cr: seq<Member>): (pc: seq<Member>)
    ensures |pc| <= |cr|
    decreases |cr|
  {
    if cr == [] then []
    else
      var m := cr[|cr| - 1];
      var front := PerClassOf(conv, cr[..|cr| - 1]);
      if IsClassEntry(m.value) then front + [Member(m.key, ClassValue(conv, m.value))] else front
  }

  /** `aggregates` after the loop has visited `cr`. */
  function AggregatesOf(cr: seq<Member>): (ag: seq<Member>)
    ensures |ag| <= |cr|
    decreases |cr|
  {
    if cr == [] then []
    else
      var m := cr[|cr| - 1];
      var front := AggregatesOf(cr[..|cr| - 1]);
      if IsClassEntry(m.value) then front else front + [m]
  }

  /** The loop of `api_model_precision` over the report's entries. */
  method Partition(conv: Conversions, cr: seq<Member>) returns (perClass: seq<Member>, aggregates: seq<Member>)
    ensures perClass == PerClassOf(conv, cr)
    ensures aggregates == AggregatesOf(cr)
  {
    perClass, aggregates := [], [];
    for i := 0 to |cr|
      invariant perClass == PerClassOf(conv, cr[..i])
      invariant aggregates == AggregatesOf(cr[..i])
    {
      assert cr[..i + 1][..i] == cr[..i];
      var k, v := cr[i].key, cr[i].value;
      if v.Object? && "precision" in Keys(v.members) {
        var converted := ConvertStats(conv, v.members);
        if converted.Some? {
          perClass := perClass + [Member(k, Object(converted.value))];
        } else {
          perClass := perClass + [Member(k, v)];
        }
      } else {
        aggregates := aggregates + [Member(k, v)];
      }
    }
    assert cr[..|cr|] == cr;
  }

  /** The aggregates are exactly the report's other entries, unchanged and in order. */
  lemma {:induction false} AggregatesAreTheRest(cr: seq<Member>)
    ensures AggregatesOf(cr) == Filter(cr, IsAggregateMember)
    decreases |cr|
  {
    if cr != [] {
      var front, m := cr[..|cr| - 1], cr[|cr| - 1];
      AggregatesAreTheRest(front);
      assert cr == front + [m];
      FilterSnoc(front, m, IsAggregateMember);
    }
  }

  /** `per_class` holds the class entries, in order, each under its own key. */
  lemma {:induction false} PerClassKeys(conv: Conversions, cr: seq<Member>)
    ensures Keys(PerClassOf(conv, cr)) == Keys(Filter(cr, IsClassMember))
    decreases |cr|
  {
    if cr != [] {
      var front, m := cr[..|cr| - 1], cr[|cr| - 1];
      PerClassKeys(conv, front);
      assert cr == front + [m];
      FilterSnoc(front, m, IsClassMember);
      var pc := PerClassOf(conv, front);
      var fc := Filter(front, IsClassMember);
      if IsClassEntry(m.value) {
        assert PerClassOf(conv, cr) == pc + [Member(m.key, ClassValue(conv, m.value))];
        assert Filter(cr, IsClassMember) == fc + [m];
        KeysAppend(pc, Member(m.key, ClassValue(conv, m.value)));
        KeysAppend(fc, m);
      } else {
        assert PerClassOf(conv, cr) == pc && Filter(cr, IsClassMember) == fc;
      }
    }
  }

  /** No entry is lost and none is counted twice. */
  lemma {:induction false} SidesCoverReport(conv: Conversions, cr: seq<Member>)
    ensures |PerClassOf(conv, cr)| + |AggregatesOf(cr)| == |cr|
    decreases |cr|
  {
    if cr != [] {
      SidesCoverReport(conv, cr[..|cr| - 1]);
    }
  }

  /** Every key of either side is a key of the report. */
  lemma {:induction false} SidesComeFromReport(conv: Conversions, cr: seq<Member>, k: string)
    ensures k in Keys(PerClassOf(conv, cr)) ==> k in Keys(cr)
    ensures k in Keys(AggregatesOf(cr)) ==> k in Keys(cr)
    decreases |cr|
  {
    if cr != [] {
      var front := cr[..|cr| - 1];
      SidesComeFromReport(conv, front, k);
      assert Keys(cr) == Keys(front) + [cr[|cr| - 1].key];
      var pc, ag := PerClassOf(conv, front), AggregatesOf(front);
      var m := cr[|cr| - 1];
      if IsClassEntry(m.value) {
        KeysAppend(pc, Member(m.key, ClassValue(conv, m.value)));
      }
      KeysAppend(ag, m);
    }
  }

  /**
   * Each entry of a report (a dictionary, so its keys are distinct) lands on
   * exactly one side: under `per_class` when it is a class entry, under
   * `aggregates` otherwise.
   */
  lemma {:induction false} ExactlyOneSide(conv: Conversions, cr: seq<Member>, i: nat)
    requires DistinctKeys(cr) && i < |cr|
    ensures cr[i].key in Keys(PerClassOf(conv, cr)) <==> IsClassEntry(cr[i].value)
    ensures cr[i].key in Keys(AggregatesOf(cr)) <==> !IsClassEntry(cr[i].value)
    decreases |cr|
  {
    var front, m := cr[..|cr| - 1], cr[|cr| - 1];
    var pc, ag := PerClassOf(conv, front), AggregatesOf(front);
    if IsClassEntry(m.value) {
      KeysAppend(pc, Member(m.key, ClassValue(conv, m.value)));
    }
    KeysAppend(ag, m);
    if i == |cr| - 1 {
      SidesComeFromReport(conv, front, m.key);
      assert m.key !in Keys(front);
    } else {
      ExactlyOneSide(conv, front, i);
      assert cr[i] == front[i] && cr[i].key != m.key;
    }
  }

  /** A class entry's value under `per_class`: its converted statistics, or itself when a conversion raised. */
  lemma {:induction false} ClassEntryValue(conv: Conversions, cr: seq<Member>, i: nat)
    requires DistinctKeys(cr) && i < |cr| && IsClassEntry(cr[i].value)
    ensures Get(PerClassOf(conv, cr), cr[i].key) == Some(ClassValue(conv, cr[i].value))
    decreases |cr|
  {
    var front, m := cr[..|cr| - 1], cr[|cr| - 1];
    var pc := PerClassOf(conv, front);
    if i == |cr| - 1 {
      assert PerClassOf(conv, cr) == pc + [Member(m.key, ClassValue(conv, m.value))];
    } else {
      ClassEntryValue(conv, front, i);
      assert cr[i] == front[i] && cr[i].key != m.key;
      if IsClassEntry(m.value) {
        assert (pc + [Member(m.key, ClassValue(conv, m.value))])[..|pc|] == pc;
      }
    }
  }

  const NoModelInfo: Reply := ErrorReply(400, "Model info not available. Train or upload dataset first.")
  const NoReport: Reply := ErrorReply(400, "Classification report not available in model_info.")

  /** `GET /model_precision` over the current `model_info` dictionary. */
  method ModelPrecision(conv: Conversions, modelInfo: seq<Member>) returns (reply: Reply)
    ensures modelInfo == [] ==> reply == NoModelInfo
    ensures modelInfo != [] && !GetOrNull(modelInfo, "classification_report").Object? ==> reply == NoReport
    ensures reply.status == 200 ==>
      && GetOrNull(modelInfo, "classification_report").Object?
      && var cr := GetOrNull(modelInfo, "classification_report").members;
      && var acc := GetOrNull(modelInfo, "accuracy");
      && OptFloat(conv, acc).Some?
      && reply.body == Object([
          Member("per_class", Object(PerClassOf(conv, cr))),
          Member("aggregates", Object(AggregatesOf(cr))),
          Member("accuracy", OptFloat(conv, acc).value)])
    ensures reply.status == 200 <==>
      modelInfo != [] && GetOrNull(modelInfo, "classification_report").Object?
      && OptFloat(conv, GetOrNull(modelInfo, "accuracy")).Some?
    ensures reply.status != 200 ==> reply in {NoModelInfo, NoReport, Uncaught}
    ensures reply == Uncaught <==>
      modelInfo != [] && GetOrNull(modelInfo, "classification_report").Object?
      && OptFloat(conv, GetOrNull(modelInfo, "accuracy")).None?
  {
    if modelInfo == [] {
      return NoModelInfo;
    }
    var cr := GetOrNull(modelInfo, "classification_report");
    if !cr.Object? {
      return NoReport;
    }
    var perClass, aggregates := Partition(conv, cr.members);
    var accuracy := OptFloat(conv, GetOrNull(modelInfo, "accuracy"));
    if accuracy.None? {
      return Uncaught;
    }
    reply := Reply(200, Object([
      Member("per_class", Object(perClass)),
      Member("aggregates", Object(aggregates)),
      Member("accuracy", accuracy.value)]));
  }
}
