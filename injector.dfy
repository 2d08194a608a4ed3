/** The HTML injector: merges a tenant configuration over defaults and
    splices it, as a script block, into the tenant's HTML document. */
module Injector {
  import opened Common

  /** A JSON value as configuration objects hold them. */
  datatype JsValue =
    | JNull
    | JBool(b: bool)
    | JNum(n: int)
    | JStr(s: string)
    | JArr(items: seq<JsValue>)
    | JObj(fields: seq<(string, JsValue)>)

  /** A JavaScript object: its own properties in enumeration order. */
  type Object = seq<(string, JsValue)>

  /** JavaScript truthiness; every array and object is truthy. */
  predicate JsTruthy(v: JsValue)
  {
    match v
    case JNull => false
    case JBool(b) => b
    case JNum(n) => n != 0
    case JStr(s) => s != ""
    case _ => true
  }

  /** The property names of an object, in order. */
  function KeySeq(o: Object): (ks: seq<string>)
    ensures |ks| == |o|
    ensures forall i :: 0 <= i < |o| ==> ks[i] == o[i].0
  {
    if |o| == 0 then [] else [o[0].0] + KeySeq(o[1..])
  }

  /** A sequence of names without repetition. */
  ghost predicate Distinct(ks: seq<string>)
  {
    forall i, j :: 0 <= i < j < |ks| ==> ks[i] != ks[j]
  }

  /** An object never has a property twice. */
  ghost predicate DistinctKeys(o: Object)
  {
    Distinct(KeySeq(o))
  }

  /** Property access `o[key]`; `None` is `undefined`. */
  function Get(o: Object, key: string): (r: Option<JsValue>)
    ensures r.Some? <==> key in KeySeq(o)
  {
    if |o| == 0 then None
    else if o[0].0 == key then Some(o[0].1)
    else Get(o[1..], key)
  }

  /** In an object, each property's name reads back its value. */
  lemma {:induction false} GetAt(o: Object, i: nat)
    requires DistinctKeys(o) && i < |o|
    ensures Get(o, o[i].0) == Some(o[i].1)
  {
    if i > 0 {
      assert KeySeq(o)[0] != KeySeq(o)[i];
      assert KeySeq(o[1..]) == KeySeq(o)[1..];
      GetAt(o[1..], i - 1);
    }
  }

  /** Property assignment `o[key] = v`: an existing property keeps its place,
      a new one goes last. */
  function Put(o: Object, key: string, v: JsValue): (r: Object)
    ensures Get(r, key) == Some(v)
    ensures forall j :: j != key ==> Get(r, j) == Get(o, j)
    ensures KeySeq(r) == if key in KeySeq(o) then KeySeq(o) else KeySeq(o) + [key]
  {
    if |o| == 0 then [(key, v)]
    else
      assert o == [o[0]] + o[1..];
      if o[0].0 == key then
        PutFront(o[0], o[1..], v);
        [(key, v)] + o[1..]
      else
        var t := Put(o[1..], key, v);
        PutBehindGet(o[0], o[1..], key, v, t);
        PutBehindKeys(o[0], o[1..], key, t);
        [o[0]] + t
  }

  /** The names of an object with a first property. */
  lemma ConsKeys(p: (string, JsValue), t: Object)
    ensures KeySeq([p] + t) == [p.0] + KeySeq(t)
  {
    assert ([p] + t)[1..] == t;
  }

  /** Property access on an object with a first property. */
  lemma ConsGet(p: (string, JsValue), t: Object)
    ensures forall j :: Get([p] + t, j) == if p.0 == j then Some(p.1) else Get(t, j)
  {
    assert ([p] + t)[1..] == t;
  }

  /** Assigning the first property replaces its value in place. */
  lemma PutFront(p: (string, JsValue), t: Object, v: JsValue)
    ensures Get([(p.0, v)] + t, p.0) == Some(v)
    ensures forall j :: j != p.0 ==> Get([(p.0, v)] + t, j) == Get([p] + t, j)
    ensures p.0 in KeySeq([p] + t) && KeySeq([(p.0, v)] + t) == KeySeq([p] + t)
  {
    ConsKeys(p, t);
    ConsKeys((p.0, v), t);
    ConsGet(p, t);
    ConsGet((p.0, v), t);
  }

  /** Assigning a later property keeps the first one in front, with the
      same effect on access as assigning it in the rest. */
  lemma PutBehindGet(p: (string, JsValue), o: Object, key: string, v: JsValue, t: Object)
    requires p.0 != key
    requires Get(t, key) == Some(v)
    requires forall j :: j != key ==> Get(t, j) == Get(o, j)
    ensures Get([p] + t, key) == Some(v)
    ensures forall j :: j != key ==> Get([p] + t, j) == Get([p] + o, j)
  {
    ConsGet(p, t);
    ConsGet(p, o);
  }

  /** ... and with the same effect on the order of names. */
  lemma PutBehindKeys(p: (string, JsValue), o: Object, key: string, t: Object)
    requires p.0 != key
    requires KeySeq(t) == if key in KeySeq(o) then KeySeq(o) else KeySeq(o) + [key]
    ensures KeySeq([p] + t) == if key in KeySeq([p] + o) then KeySeq([p] + o) else KeySeq([p] + o) + [key]
  {
    ConsKeys(p, t);
    ConsKeys(p, o);
    var ko := KeySeq(o);
    assert key in [p.0] + ko <==> key in ko;
    if key !in ko {
      assert [p.0] + (ko + [key]) == [p.0] + ko + [key];
    }
  }

  lemma PutDistinct(o: Object, key: string, v: JsValue)
    requires DistinctKeys(o)
    ensures DistinctKeys(Put(o, key, v))
  {
    var ks := KeySeq(o);
    if key !in ks {
      var ks' := ks + [key];
      forall i, j | 0 <= i < j < |ks'| ensures ks'[i] != ks'[j] {
        if j == |ks| {
          assert ks'[i] == ks[i];
        }
      }
    }
  }

  /** Object spread `{ ...base, ...over }`: the properties of `over`, in
      order, assigned onto `base`. */
  function Spread(base: Object, over: Object): (r: Object)
    ensures forall k :: k in KeySeq(r) <==> k in KeySeq(base) || k in KeySeq(over)
    decreases |over|
  {
    if |over| == 0 then base
    else
      assert KeySeq(over) == [over[0].0] + KeySeq(over[1..]);
      Spread(Put(base, over[0].0, over[0].1), over[1..])
  }

  /** Dropping the first property keeps the names distinct, and the first
      name does not recur. */
  lemma TailDistinct(o: Object)
    requires DistinctKeys(o) && |o| > 0
    ensures DistinctKeys(o[1..])
    ensures o[0].0 !in KeySeq(o[1..])
  {
    var ks, ts := KeySeq(o), KeySeq(o[1..]);
    assert ts == ks[1..];
    forall i | 0 <= i < |ts| ensures ts[i] != o[0].0 {
      assert ks[0] != ks[i + 1];
    }
  }

  /** After the spread a property reads as in `over` when `over` has it,
      else as in `base`. */
  lemma {:induction false} SpreadGet(base: Object, over: Object, k: string)
    requires DistinctKeys(over)
    ensures Get(Spread(base, over), k) == if Get(over, k).Some? then Get(over, k) else Get(base, k)
    decreases |over|
  {
    if |over| > 0 {
      TailDistinct(over);
      SpreadGet(Put(base, over[0].0, over[0].1), over[1..], k);
    }
  }

  /** The spread keeps `base`'s properties in their places, in front. */
  lemma {:induction false} SpreadPrefix(base: Object, over: Object)
    ensures |KeySeq(Spread(base, over))| >= |base|
    ensures KeySeq(Spread(base, over))[..|base|] == KeySeq(base)
    decreases |over|
  {
    if |over| > 0 {
      var next := Put(base, over[0].0, over[0].1);
      SpreadPrefix(next, over[1..]);
      assert Spread(base, over) == Spread(next, over[1..]);
      var ks, ks' := KeySeq(base), KeySeq(next);
      assert |ks| <= |ks'| && ks'[..|ks|] == ks;
      PrefixTrans(ks, ks', KeySeq(Spread(next, over[1..])));
    }
  }

  /** A prefix of a prefix is a prefix. */
  lemma PrefixTrans(a: seq<string>, b: seq<string>, c: seq<string>)
    requires |a| <= |b| <= |c| && b[..|a|] == a && c[..|b|] == b
    ensures c[..|a|] == a
  {
    assert c[..|a|] == c[..|b|][..|a|];
  }

  /** The spread of two objects is an object: no name repeats. */
  lemma {:induction false} SpreadDistinct(base: Object, over: Object)
    requires DistinctKeys(base) && DistinctKeys(over)
    ensures DistinctKeys(Spread(base, over))
    decreases |over|
  {
    if |over| > 0 {
      TailDistinct(over);
      PutDistinct(base, over[0].0, over[0].1);
      SpreadDistinct(Put(base, over[0].0, over[0].1), over[1..]);
    }
  }

  /** `o.key || dflt`. */
  function PropOr(o: Object, key: string, dflt: JsValue): (r: JsValue)
    ensures r == dflt || (Get(o, key) == Some(r) && JsTruthy(r))
  {
    match Get(o, key)
    case Some(v) => if JsTruthy(v) then v else dflt
    case None => dflt
  }

  const EnterpriseIdKey := "enterprise_id"
  const ThemeKey := "theme"
  const FeatureFlagsKey := "feature_flags"
  const ApiBaseUrlKey := "api_base_url"

  /** The names `injectConfig` always sets, in the literal's order. */
  const ConfigNames := [EnterpriseIdKey, ThemeKey, FeatureFlagsKey, ApiBaseUrlKey]

  /** The properties written out in `injectConfig`'s object literal before
      the spread: the tenant id and three defaulted settings. */
  function Defaults(enterpriseId: string, config: Object): (d: Object)
    ensures KeySeq(d) == ConfigNames
  {
    [(EnterpriseIdKey, JStr(enterpriseId)),
     (ThemeKey, PropOr(config, ThemeKey, JStr("default"))),
     (FeatureFlagsKey, PropOr(config, FeatureFlagsKey, JArr([]))),
     (ApiBaseUrlKey, PropOr(config, ApiBaseUrlKey, JStr("/api")))]
  }

  lemma DefaultsShape(enterpriseId: string, config: Object)
    ensures KeySeq(Defaults(enterpriseId, config)) == ConfigNames
    ensures DistinctKeys(Defaults(enterpriseId, config))
    ensures Get(Defaults(enterpriseId, config), EnterpriseIdKey) == Some(JStr(enterpriseId))
    ensures Get(Defaults(enterpriseId, config), ThemeKey) == Some(PropOr(config, ThemeKey, JStr("default")))
    ensures Get(Defaults(enterpriseId, config), FeatureFlagsKey) == Some(PropOr(config, FeatureFlagsKey, JArr([])))
    ensures Get(Defaults(enterpriseId, config), ApiBaseUrlKey) == Some(PropOr(config, ApiBaseUrlKey, JStr("/api")))
  {
    var d := Defaults(enterpriseId, config);
    assert KeySeq(d) == ConfigNames;
    GetAt(d, 0);
    GetAt(d, 1);
    GetAt(d, 2);
    GetAt(d, 3);
  }

  /** The merged configuration of `injectConfig`: the literal, then a
      spread of `config`. */
  function AppConfig(enterpriseId: string, config: Object): (m: Object)
    ensures forall k :: k in KeySeq(m) <==> k in ConfigNames || k in KeySeq(config)
  {
    Spread(Defaults(enterpriseId, config), config)
  }

  /** The merged configuration is an object whose first four properties are
      the tenant id and the three settings. */
  lemma AppConfigKeys(enterpriseId: string, config: Object)
    requires DistinctKeys(config)
    ensures |KeySeq(AppConfig(enterpriseId, config))| >= 4
    ensures KeySeq(AppConfig(enterpriseId, config))[..4] == ConfigNames
    ensures DistinctKeys(AppConfig(enterpriseId, config))
  {
    DefaultsShape(enterpriseId, config);
    SpreadPrefix(Defaults(enterpriseId, config), config);
    SpreadDistinct(Defaults(enterpriseId, config), config);
  }

  /** Each of the four takes its value from `config` whenever `config` has
      that property (falsy or not, the tenant id included), and otherwise
      the tenant id or the default; every other property is `config`'s. */
  lemma AppConfigFields(enterpriseId: string, config: Object)
    requires DistinctKeys(config)
    ensures var m := AppConfig(enterpriseId, config);
            && Get(m, EnterpriseIdKey) == (if Get(config, EnterpriseIdKey).Some? then Get(config, EnterpriseIdKey)
                                           else Some(JStr(enterpriseId)))
            && Get(m, ThemeKey) == (if Get(config, ThemeKey).Some? then Get(config, ThemeKey)
                                    else Some(JStr("default")))
            && Get(m, FeatureFlagsKey) == (if Get(config, FeatureFlagsKey).Some? then Get(config, FeatureFlagsKey)
                                           else Some(JArr([])))
            && Get(m, ApiBaseUrlKey) == (if Get(config, ApiBaseUrlKey).Some? then Get(config, ApiBaseUrlKey)
                                         else Some(JStr("/api")))
            && (forall k :: k !in ConfigNames ==> Get(m, k) == Get(config, k))
  {
    var d := Defaults(enterpriseId, config);
    DefaultsShape(enterpriseId, config);
    SpreadGet(d, config, EnterpriseIdKey);
    SpreadGet(d, config, ThemeKey);
    SpreadGet(d, config, FeatureFlagsKey);
    SpreadGet(d, config, ApiBaseUrlKey);
    forall k | k !in ConfigNames ensures Get(AppConfig(enterpriseId, config), k) == Get(config, k) {
      SpreadGet(d, config, k);
    }
  }

  /** `o.key || dflt` is `dflt` exactly when the property is absent or falsy. */
  lemma PropOrWhenPresent(o: Object, key: string, dflt: JsValue)
    ensures Get(o, key).None? ==> PropOr(o, key, dflt) == dflt
    ensures Get(o, key).Some? && JsTruthy(Get(o, key).value) ==> PropOr(o, key, dflt) == Get(o, key).value
    ensures Get(o, key).Some? && !JsTruthy(Get(o, key).value) ==> PropOr(o, key, dflt) == dflt
  {
  }

  /** The fixed text before and after the JSON in the script block. */
  const ScriptLead := "\n    <script>\n      "
  const ConfigAssign := "window.__APP_CONFIG__ = "
  const ScriptTail := "\n    </script>\n    "
  const ScriptOpen := ScriptLead + ConfigAssign
  const ScriptClose := ";" + ScriptTail

  /** The script block declaring `window.__APP_CONFIG__`, around the JSON
      text of the merged configuration: the JSON appears verbatim, and the
      block contains a `$` only when the JSON does. */
  function ConfigScript(json: string): (s: string)
    ensures |s| == |ScriptOpen| + |json| + |ScriptClose|
    ensures s[..|ScriptOpen|] == ScriptOpen
    ensures s[|ScriptOpen|..|ScriptOpen| + |json|] == json
    ensures s[|ScriptOpen| + |json|..] == ScriptClose
    ensures '$' in s <==> '$' in json
  {
    assert forall i :: 0 <= i < |ScriptOpen| ==> ScriptOpen[i] != '$';
    assert forall i :: 0 <= i < |ScriptClose| ==> ScriptClose[i] != '$';
    var s := ScriptOpen + json + ScriptClose;
    assert s[..|ScriptOpen|] == ScriptOpen;
    assert s[|ScriptOpen|..|ScriptOpen| + |json|] == json;
    assert s[|ScriptOpen| + |json|..] == ScriptClose;
    s
  }

  const HeadClose := "</head>"
  const BodyOpen := "<body>"

  /** `pat` occurs in `s` at position `i`. */
  predicate OccursAt(s: string, pat: string, i: nat)
  {
    i + |pat| <= |s| && s[i..i + |pat|] == pat
  }

  /** `i` is the first position where `pat` occurs in `s`. */
  ghost predicate FirstAt(s: string, pat: string, i: nat)
  {
    OccursAt(s, pat, i) && forall j :: 0 <= j < i ==> !OccursAt(s, pat, j)
  }

  /** The first position at or after `k` where `pat` occurs. */
  function IndexFrom(s: string, pat: string, k: nat): (r: Option<nat>)
    requires k <= |s|
    ensures r.Some? ==> k <= r.value && OccursAt(s, pat, r.value)
                        && forall j :: k <= j < r.value ==> !OccursAt(s, pat, j)
    ensures r.None? ==> forall j :: k <= j <= |s| ==> !OccursAt(s, pat, j)
    decreases |s| - k
  {
    if k + |pat| > |s| then None
    else if s[k..k + |pat|] == pat then Some(k)
    else IndexFrom(s, pat, k + 1)
  }

  /** `s.indexOf(pat)`, with `None` for -1; `s.includes(pat)` is `Some?`. */
  function IndexOf(s: string, pat: string): (r: Option<nat>)
    ensures r.Some? ==> FirstAt(s, pat, r.value)
    ensures r.None? ==> forall j :: 0 <= j <= |s| ==> !OccursAt(s, pat, j)
  {
    IndexFrom(s, pat, 0)
  }

  /** The first occurrence is unique. */
  lemma FirstAtIndexOf(s: string, pat: string, i: nat)
    requires FirstAt(s, pat, i)
    ensures IndexOf(s, pat) == Some(i)
  {
    var r := IndexOf(s, pat);
    assert r.Some?;
    assert !(r.value < i) && !(i < r.value);
  }

  /** The replacement text of `String.prototype.replace` with a string
      pattern: `$$` is `$`, `$&` the match, `` $` `` the text before it, `$'`
      the text after it; everything else is copied. */
  function Expand(repl: string, matched: string, before: string, after: string): (out: string)
    ensures '$' !in repl ==> out == repl
    decreases |repl|
  {
    if |repl| == 0 then ""
    else if repl[0] == '$' && |repl| >= 2 && repl[1] == '$' then "$" + Expand(repl[2..], matched, before, after)
    else if repl[0] == '$' && |repl| >= 2 && repl[1] == '&' then matched + Expand(repl[2..], matched, before, after)
    else if repl[0] == '$' && |repl| >= 2 && repl[1] == '`' then before + Expand(repl[2..], matched, before, after)
    else if repl[0] == '$' && |repl| >= 2 && repl[1] == '\'' then after + Expand(repl[2..], matched, before, after)
    else
      assert '$' !in repl ==> '$' !in repl[1..];
      [repl[0]] + Expand(repl[1..], matched, before, after)
  }

  /** `s.replace(pat, repl)` for a string `pat`: only the first occurrence
      is replaced; with none, `s` is returned. */
  function ReplaceFirst(s: string, pat: string, repl: string): (r: string)
    ensures IndexOf(s, pat).None? ==> r == s
    ensures IndexOf(s, pat).Some? && '$' !in repl ==>
              var i := IndexOf(s, pat).value;
              r == s[..i] + repl + s[i + |pat|..]
  {
    match IndexOf(s, pat)
    case None => s
    case Some(i) => s[..i] + Expand(repl, pat, s[..i], s[i + |pat|..]) + s[i + |pat|..]
  }

  /** Where the script goes: before the first `</head>`, else before the
      first `<body>`, else at the front. */
  function Splice(html: string, script: string): (r: string)
    ensures '$' !in script ==> exists i :: 0 <= i <= |html| && r == html[..i] + script + html[i..]
    ensures '$' !in script ==> |r| == |html| + |script|
  {
    var h, b := IndexOf(html, HeadClose), IndexOf(html, BodyOpen);
    if h.Some? then
      var r := ReplaceFirst(html, HeadClose, script + HeadClose);
      assert '$' !in script ==> r == html[..h.value] + script + html[h.value..] by {
        if '$' !in script {
          InsertBefore(html, HeadClose, script, h.value);
        }
      }
      r
    else if b.Some? then
      var r := ReplaceFirst(html, BodyOpen, script + BodyOpen);
      assert '$' !in script ==> r == html[..b.value] + script + html[b.value..] by {
        if '$' !in script {
          InsertBefore(html, BodyOpen, script, b.value);
        }
      }
      r
    else
      assert html[..0] + script + html[0..] == script + html;
      script + html
  }

  /** `injectConfig(html, enterpriseId, config)`; `stringify` stands for
      `JSON.stringify(·, null, 2)`. */
  function InjectConfig(html: string, enterpriseId: string, config: Object, stringify: Object -> string)
    : (r: string)
    ensures var script := ConfigScript(stringify(AppConfig(enterpriseId, config)));
            '$' !in stringify(AppConfig(enterpriseId, config)) ==>
              && |r| == |html| + |script|
              && exists i :: 0 <= i <= |html| && r == html[..i] + script + html[i..]
  {
    Splice(html, ConfigScript(stringify(AppConfig(enterpriseId, config))))
  }

  /** Replacing an anchor by script-plus-anchor inserts the script before it. */
  lemma {:induction false} InsertBefore(html: string, anchor: string, script: string, i: nat)
    requires '$' !in script && '$' !in anchor
    requires FirstAt(html, anchor, i)
    ensures ReplaceFirst(html, anchor, script + anchor) == html[..i] + script + html[i..]
  {
    FirstAtIndexOf(html, anchor, i);
    assert '$' !in script + anchor;
    var rest := html[i + |anchor|..];
    assert ReplaceFirst(html, anchor, script + anchor) == html[..i] + (script + anchor) + rest;
    assert html[i..] == anchor + rest;
    assert html[..i] + (script + anchor) + rest == html[..i] + script + (anchor + rest);
  }

  /** With a first `</head>` at `i` the script goes right before it, where
      ever a `<body>` may be. */
  lemma SpliceBeforeHeadClose(html: string, script: string, i: nat)
    requires '$' !in script
    requires FirstAt(html, HeadClose, i)
    ensures Splice(html, script) == html[..i] + script + html[i..]
  {
    FirstAtIndexOf(html, HeadClose, i);
    InsertBefore(html, HeadClose, script, i);
  }

  /** Without `</head>`, the script goes right before the first `<body>`. */
  lemma SpliceBeforeBodyOpen(html: string, script: string, i: nat)
    requires '$' !in script
    requires forall j :: 0 <= j <= |html| ==> !OccursAt(html, HeadClose, j)
    requires FirstAt(html, BodyOpen, i)
    ensures Splice(html, script) == html[..i] + script + html[i..]
  {
    assert IndexOf(html, HeadClose).None?;
    FirstAtIndexOf(html, BodyOpen, i);
    InsertBefore(html, BodyOpen, script, i);
  }

  /** With neither anchor, the script is prepended. */
  lemma SplicePrepend(html: string, script: string)
    requires forall j :: 0 <= j <= |html| ==> !OccursAt(html, HeadClose, j) && !OccursAt(html, BodyOpen, j)
    ensures Splice(html, script) == script + html
  {
    assert IndexOf(html, HeadClose).None?;
    assert IndexOf(html, BodyOpen).None?;
  }

  /** The script block assigns the JSON text to `window.__APP_CONFIG__`. */
  lemma ScriptAssigns(json: string)
    ensures OccursAt(ConfigScript(json), ConfigAssign + json + ";", |ScriptLead|)
  {
    var stmt := ConfigAssign + json + ";";
    assert ConfigScript(json) == ScriptLead + stmt + ScriptTail;
    assert (ScriptLead + stmt + ScriptTail)[|ScriptLead|..|ScriptLead| + |stmt|] == stmt;
  }

  /** An occurrence inside a piece is an occurrence inside the whole. */
  lemma OccursInside(a: string, mid: string, b: string, pat: string, k: nat)
    requires OccursAt(mid, pat, k)
    ensures OccursAt(a + mid + b, pat, |a| + k)
  {
    assert (a + mid + b)[|a| + k..|a| + k + |pat|] == mid[k..k + |pat|];
  }

  /** The injected document assigns the JSON text of the merged
      configuration to `window.__APP_CONFIG__`, as one statement. */
  lemma InjectAssignsAppConfig(html: string, enterpriseId: string, config: Object, stringify: Object -> string)
    requires '$' !in stringify(AppConfig(enterpriseId, config))
    ensures var json := stringify(AppConfig(enterpriseId, config));
            exists j: nat :: OccursAt(InjectConfig(html, enterpriseId, config, stringify),
                                      ConfigAssign + json + ";", j)
  {
    var json := stringify(AppConfig(enterpriseId, config));
    var script := ConfigScript(json);
    var out := InjectConfig(html, enterpriseId, config, stringify);
    var i :| 0 <= i <= |html| && out == html[..i] + script + html[i..];
    ScriptAssigns(json);
    OccursInside(html[..i], script, html[i..], ConfigAssign + json + ";", |ScriptLead|);
  }

  /** Injecting twice adds a second block: the call is not idempotent. */
  lemma InjectNotIdempotent(html: string, enterpriseId: string, config: Object, stringify: Object -> string)
    requires '$' !in stringify(AppConfig(enterpriseId, config))
    ensures |InjectConfig(InjectConfig(html, enterpriseId, config, stringify), enterpriseId, config, stringify)|
            == |html| + 2 * |ConfigScript(stringify(AppConfig(enterpriseId, config)))|
    ensures InjectConfig(InjectConfig(html, enterpriseId, config, stringify), enterpriseId, config, stringify)
            != InjectConfig(html, enterpriseId, config, stringify)
  {
    var script := ConfigScript(stringify(AppConfig(enterpriseId, config)));
    assert |InjectConfig(html, enterpriseId, config, stringify)| == |html| + |script|;
  }

  /** `$&` at the front of a replacement stands for the matched text. */
  lemma ExpandMatched(rest: string, matched: string, before: string, after: string)
    requires '$' !in rest
    ensures Expand("$&" + rest, matched, before, after) == matched + rest
  {
    assert ("$&" + rest)[2..] == rest;
  }

  /** The `$` restriction is needed: a script containing `$&` re-inserts the
      matched anchor. */
  lemma DollarPatternExpands()
    ensures Splice(HeadClose, "$&") == HeadClose + HeadClose
  {
    assert FirstAt(HeadClose, HeadClose, 0);
    FirstAtIndexOf(HeadClose, HeadClose, 0);
    assert '$' !in HeadClose;
    ExpandMatched(HeadClose, HeadClose, "", "");
    assert HeadClose[..0] == "" && HeadClose[|HeadClose|..] == "";
  }

  /** The static per-tenant configuration table. */
  function GenerateDefaultConfig(enterpriseId: string): (r: Object)
    ensures KeySeq(r) == [ThemeKey, FeatureFlagsKey, ApiBaseUrlKey]
    ensures DistinctKeys(r)
  {
    if enterpriseId == "enterprise-a" then
      [(ThemeKey, JStr("blue")), (FeatureFlagsKey, JArr([JStr("feature1"), JStr("feature2")])),
       (ApiBaseUrlKey, JStr("/api/v2"))]
    else if enterpriseId == "enterprise-b" then
      [(ThemeKey, JStr("green")), (FeatureFlagsKey, JArr([JStr("feature1")])), (ApiBaseUrlKey, JStr("/api/v1"))]
    else
      [(ThemeKey, JStr("default")), (FeatureFlagsKey, JArr([])), (ApiBaseUrlKey, JStr("/api"))]
  }

  /** Tenants without their own entry get the 'default' entry. */
  lemma DefaultConfigFallback(enterpriseId: string)
    requires enterpriseId != "enterprise-a" && enterpriseId != "enterprise-b"
    ensures GenerateDefaultConfig(enterpriseId) == GenerateDefaultConfig("default")
    ensures Get(GenerateDefaultConfig(enterpriseId), ThemeKey) == Some(JStr("default"))
    ensures Get(GenerateDefaultConfig(enterpriseId), ApiBaseUrlKey) == Some(JStr("/api"))
  {
    GetAt(GenerateDefaultConfig(enterpriseId), 0);
    GetAt(GenerateDefaultConfig(enterpriseId), 2);
  }
}
