/**
 * The server's configuration dictionary `cfg`: its defaults, the
 * hyper-parameter update of `POST /config/hyperparams`, and the training
 * settings read back out of it.
 */
module NasaConfig {
  import opened Wrappers
  import opened Text
  import opened Json
  import opened Py

  /** The only keys a hyper-parameter update may touch, in the order it visits them. */
  const HyperparamKeys: seq<string> := ["numest", "mxdepth", "randstate"]

  /** `k in body` of Python; `None` where it raises (a number, a boolean or `None` as the body). */
  function Contains(body: Value, k: string): Option<bool>
  {
    match body
    case Object(ms) => Some(k in Keys(ms))
    case Array(items) => Some(Str(k) in items)
    case Str(s) => Some(IsSubstring(k, s))
    case _ => None
  }

  /** The dictionary that assigning `ms` member by member builds. */
  function AsMap(ms: seq<Member>): (m: map<string, Value>)
    ensures m.Keys == set k | k in Keys(ms)
  {
    if ms == [] then map[]
    else
      var m := AsMap(ms[..|ms| - 1]);
      assert Keys(ms) == Keys(ms[..|ms| - 1]) + [ms[|ms| - 1].key];
      m[ms[|ms| - 1].key := ms[|ms| - 1].value]
  }

  /**
   * The `updated` dictionary after the loop has visited `keys`; `None` when
   * a step raises (a body that is not a dictionary).
   */
  function Updated(body: Value, keys: seq<string>): Option<seq<Member>>
    decreases |keys|
  {
    if keys == [] then Some([])
    else Step(body, keys[|keys| - 1], Updated(body, keys[..|keys| - 1]))
  }

  /** One turn of the loop, for key `k`, after the turns that gave `prev`. */
  function Step(body: Value, k: string, prev: Option<seq<Member>>): Option<seq<Member>>
  {
    match prev
    case None => None
    case Some(u) =>
      match Contains(body, k)
      case None => None
      case Some(false) => Some(u)
      case Some(true) => if body.Object? then Some(u + [Member(k, GetOrNull(body.members, k))]) else None
  }

  lemma UpdatedNext(body: Value, keys: seq<string>, i: nat)
    requires i < |keys|
    ensures Updated(body, keys[..i + 1]) == Step(body, keys[i], Updated(body, keys[..i]))
  {
    assert keys[..i + 1][..i] == keys[..i];
  }

  /** The hyper-parameter update of a body. */
  function HyperparamUpdate(body: Value): Option<seq<Member>>
  {
    Updated(body, HyperparamKeys)
  }

  /**
   * For a dictionary body the update never fails, and it holds exactly the
   * three hyper-parameters the body names, in order, with the body's values.
   */
  lemma HyperparamUpdateOfObject(ms: seq<Member>)
    ensures var u := HyperparamUpdate(Object(ms));
      && u.Some?
      && Keys(u.value) == Filter(HyperparamKeys, k => k in Keys(ms))
      && forall i :: 0 <= i < |u.value| ==> u.value[i].value == GetOrNull(ms, u.value[i].key)
  {
    UpdatedOfObject(ms, HyperparamKeys);
  }

  lemma {:induction false} UpdatedOfObject(ms: seq<Member>, keys: seq<string>)
    ensures var u := Updated(Object(ms), keys);
      && u.Some?
      && Keys(u.value) == Filter(keys, k => k in Keys(ms))
      && forall i :: 0 <= i < |u.value| ==> u.value[i].value == GetOrNull(ms, u.value[i].key)
    decreases |keys|
  {
    if keys != [] {
      var front, k := keys[..|keys| - 1], keys[|keys| - 1];
      UpdatedOfObject(ms, front);
      var u := Updated(Object(ms), front).value;
      assert Updated(Object(ms), keys) == Step(Object(ms), k, Some(u));
      assert keys == front + [k];
      FilterConcat(front, [k], k => k in Keys(ms));
      if k in Keys(ms) {
        var m := Member(k, GetOrNull(ms, k));
        assert Updated(Object(ms), keys) == Some(u + [m]);
        assert Keys(u + [m]) == Keys(u) + [k];
      } else {
        assert Updated(Object(ms), keys) == Some(u);
      }
    }
  }

  /** The update touches no key but the three hyper-parameters. */
  lemma HyperparamUpdateKeys(body: Value)
    ensures HyperparamUpdate(body).Some? ==>
      forall k :: k in AsMap(HyperparamUpdate(body).value) ==> k in HyperparamKeys
  {
    UpdatedKeys(body, HyperparamKeys);
  }

  lemma {:induction false} UpdatedKeys(body: Value, keys: seq<string>)
    ensures Updated(body, keys).Some? ==> forall k :: k in Keys(Updated(body, keys).value) ==> k in keys
    decreases |keys|
  {
    if keys != [] {
      var front, k := keys[..|keys| - 1], keys[|keys| - 1];
      UpdatedKeys(body, front);
      assert keys == front + [k];
      var prev := Updated(body, front);
      assert Updated(body, keys) == Step(body, k, prev);
      if Updated(body, keys).Some? {
        var u := prev.value;
        var now := Updated(body, keys).value;
        if now != u {
          assert now == u + [Member(k, GetOrNull(body.members, k))];
          KeysAppend(u, Member(k, GetOrNull(body.members, k)));
        }
      }
    }
  }

  /** A body that is not a dictionary updates nothing, or fails. */
  lemma HyperparamUpdateOfNonObject(body: Value)
    requires !body.Object?
    ensures HyperparamUpdate(body) == None || HyperparamUpdate(body) == Some([])
  {
    UpdatedNonObject(body, HyperparamKeys);
  }

  lemma {:induction false} UpdatedNonObject(body: Value, keys: seq<string>)
    requires !body.Object?
    ensures Updated(body, keys) == None || Updated(body, keys) == Some([])
    decreases |keys|
  {
    if keys != [] {
      UpdatedNonObject(body, keys[..|keys| - 1]);
    }
  }

  /** Once a step has raised, the loop has raised. */
  lemma {:induction false} UpdatedStaysFailed(body: Value, keys: seq<string>, i: nat)
    requires i <= |keys| && Updated(body, keys[..i]) == None
    ensures Updated(body, keys) == None
    decreases |keys|
  {
    if i < |keys| {
      assert keys[..|keys| - 1][..i] == keys[..i];
      UpdatedStaysFailed(body, keys[..|keys| - 1], i);
    } else {
      assert keys[..i] == keys;
    }
  }

  lemma MergeNothing(m: map<string, Value>)
    ensures m + AsMap([]) == m
  {
    assert AsMap([]) == map[];
  }

  /** Merging one more member is one more assignment. */
  lemma MergeSnoc(cfg: map<string, Value>, u: seq<Member>, m: Member)
    ensures cfg + AsMap(u + [m]) == (cfg + AsMap(u))[m.key := m.value]
  {
    assert (u + [m])[..|u|] == u;
    assert AsMap(u + [m]) == AsMap(u)[m.key := m.value];
  }

  /** The default settings. */
  function Defaults(cwd: string): map<string, Value>
  {
    map["path" := Str(Join(cwd, "kepler.csv")),
        "numest" := Int(100),
        "mxdepth" := Int(100),
        "randstate" := Int(42),
        "upload_dir" := Str(Join(cwd, "uploaded_csvs"))]
  }

  /** `cfg`, shared by the request handlers. */
  class ServerConfig {
    var cfg: map<string, Value>

    /** The settings every handler may read. */
    predicate Valid()
      reads this
    {
      "path" in cfg && "upload_dir" in cfg && forall k :: k in HyperparamKeys ==> k in cfg
    }

    constructor (cwd: string)
      ensures Valid() && cfg == Defaults(cwd)
    {
      cfg := Defaults(cwd);
    }

    /**
     * The loop of `POST /config/hyperparams`: copy each hyper-parameter the
     * body names into `cfg`, and report what was copied. `None` is the body
     * that makes the loop raise; nothing has been changed then.
     */
    method SetHyperparams(body: Value) returns (updated: Option<seq<Member>>)
      requires Valid()
      modifies this
      ensures Valid()
      ensures updated == HyperparamUpdate(body)
      ensures updated.Some? ==> cfg == old(cfg) + AsMap(updated.value)
      ensures updated.None? ==> cfg == old(cfg)
    {
      var u: seq<Member> := [];
      var keys := HyperparamKeys;
      for i := 0 to |keys|
        invariant Valid()
        invariant Updated(body, keys[..i]) == Some(u)
        invariant cfg == old(cfg) + AsMap(u)
      {
        var k := keys[i];
        UpdatedNext(body, keys, i);
        var c := Contains(body, k);
        if c.None? || (c.value && !body.Object?) {
          UpdatedStaysFailed(body, keys, i + 1);
          UpdatedNonObject(body, keys[..i]);
          MergeNothing(old(cfg));
          return None;
        }
        if c.value {
          var v := GetOrNull(body.members, k);
          MergeSnoc(old(cfg), u, Member(k, v));
          cfg := cfg[k := v];
          u := u + [Member(k, v)];
        }
      }
      assert keys[..|keys|] == keys;
      return Some(u);
    }
  }

  // ---------------------------------------------------------------------
  // Training settings

  datatype MaxDepth = Unlimited | Limited(depth: int)

  /** Python's `v in [None, 0]`. */
  predicate NoneOrZero(v: Value)
  {
    v == Null || v == Int(0) || v == Float(0.0) || v == Bool(false)
  }

  /** The tree depth a `mxdepth` setting asks for; `None` where `int()` raises. */
  function MaxDepthSetting(conv: Conversions, v: Value): (r: Option<MaxDepth>)
    ensures r == Some(Unlimited) <==> NoneOrZero(v)
    ensures !NoneOrZero(v) ==> (r.Some? <==> ToInt(conv, v).Some?)
    ensures !NoneOrZero(v) && r.Some? ==> r.value == Limited(ToInt(conv, v).value)
  {
    if NoneOrZero(v) then Some(Unlimited)
    else match ToInt(conv, v)
      case Some(d) => Some(Limited(d))
      case None => None
  }

  /** The text "0" is not a missing depth: it is converted like any other value. */
  lemma ZeroTextIsNotUnlimited(conv: Conversions)
    ensures MaxDepthSetting(conv, Str("0")) == (match conv.intOfText("0") case Some(d) => Some(Limited(d)) case None => None)
  {
  }

  datatype Settings = Settings(path: Value, numest: int, maxDepth: MaxDepth, randstate: int)

  /** The settings `train_model` reads from `cfg`; `None` where a conversion raises. */
  function TrainSettings(conv: Conversions, cfg: map<string, Value>): (r: Option<Settings>)
    requires "path" in cfg && forall k :: k in HyperparamKeys ==> k in cfg
    ensures r.Some? ==>
      && r.value.path == cfg["path"]
      && Some(r.value.numest) == ToInt(conv, cfg["numest"])
      && Some(r.value.maxDepth) == MaxDepthSetting(conv, cfg["mxdepth"])
      && Some(r.value.randstate) == ToInt(conv, cfg["randstate"])
    ensures r.Some? <==>
      && ToInt(conv, cfg["numest"]).Some?
      && MaxDepthSetting(conv, cfg["mxdepth"]).Some?
      && ToInt(conv, cfg["randstate"]).Some?
  {
    assert "numest" in HyperparamKeys && "mxdepth" in HyperparamKeys && "randstate" in HyperparamKeys;
    match (ToInt(conv, cfg["numest"]), MaxDepthSetting(conv, cfg["mxdepth"]), ToInt(conv, cfg["randstate"]))
    case (Some(n), Some(d), Some(r)) => Some(Settings(cfg["path"], n, d, r))
    case _ => None
  }

  /** The defaults train with 100 trees of depth at most 100 and seed 42. */
  lemma DefaultSettings(conv: Conversions, cwd: string)
    ensures TrainSettings(conv, Defaults(cwd)) == Some(Settings(Str(Join(cwd, "kepler.csv")), 100, Limited(100), 42))
  {
  }

  /** Setting `mxdepth` to 0 through the update lifts the depth limit. */
  lemma ZeroDepthUpdate(conv: Conversions, cfg: map<string, Value>, ms: seq<Member>)
    requires "path" in cfg && forall k :: k in HyperparamKeys ==> k in cfg
    requires GetOrNull(ms, "mxdepth") == Int(0)
    ensures HyperparamUpdate(Object(ms)).Some?
    ensures var cfg' := cfg + AsMap(HyperparamUpdate(Object(ms)).value);
      "mxdepth" in cfg' && MaxDepthSetting(conv, cfg'["mxdepth"]) == Some(Unlimited)
  {
    HyperparamUpdateOfObject(ms);
    var u := HyperparamUpdate(Object(ms)).value;
    assert "mxdepth" in Keys(ms);
    assert "mxdepth" in Keys(u) by {
      assert Filter(HyperparamKeys, k => k in Keys(ms)) == Keys(u);
      FilterKeepsMember(HyperparamKeys, k => k in Keys(ms), 1);
    }
    AsMapGet(u, "mxdepth");
    var v := Get(u, "mxdepth").value;
    var i :| 0 <= i < |u| && u[i] == Member("mxdepth", v);
    assert v == Int(0);
  }

  lemma {:induction false} FilterKeepsMember<T>(s: seq<T>, p: T -> bool, i: nat)
    requires i < |s| && p(s[i])
    ensures s[i] in Filter(s, p)
    decreases i
  {
    if i > 0 {
      FilterKeepsMember(s[1..], p, i - 1);
    }
  }

  /** The dictionary built from the members holds, under each key, what a lookup of that key finds. */
  lemma {:induction false} AsMapGet(ms: seq<Member>, k: string)
    requires k in Keys(ms)
    ensures k in AsMap(ms) && AsMap(ms)[k] == Get(ms, k).value
    decreases |ms|
  {
    var front := ms[..|ms| - 1];
    if ms[|ms| - 1].key != k {
      assert Keys(ms) == Keys(front) + [ms[|ms| - 1].key];
      AsMapGet(front, k);
    }
  }
}
