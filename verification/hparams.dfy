/** The flat hyperparameter map handed to the metrics writer: every top-level
    setting whose value is not itself a dict, merged with the nested model
    settings by Python's dict union `|`, in which the right operand wins. */
module HParams {
  import opened PySemantics

  /** A Python value as it may appear in the settings dict. */
  datatype PyValue =
    | PyStr(s: string)
    | PyInt(i: int)
    | PyFloat(r: real)
    | PyBool(b: bool)
    | PyDict(entries: map<string, PyValue>)

  const ModelSettingsKey := "model_settings"

  /** The comprehension `{k: v for k, v in settings.items() if not isinstance(v, dict)}`. */
  function NonDictEntries(settings: map<string, PyValue>): (m: map<string, PyValue>)
    ensures forall k :: k in m <==> k in settings && !settings[k].PyDict?
    ensures forall k :: k in m ==> m[k] == settings[k]
  {
    map k | k in settings && !settings[k].PyDict? :: settings[k]
  }

  /** Python's `a | b` on two dicts: every key of either, with `b`'s value on a clash. */
  function DictUnion(a: map<string, PyValue>, b: map<string, PyValue>): (u: map<string, PyValue>)
    ensures u.Keys == a.Keys + b.Keys
    ensures forall k :: k in b ==> u[k] == b[k]
    ensures forall k :: k in a && k !in b ==> u[k] == a[k]
  {
    a + b
  }

  /** The whole expression: the comprehension is evaluated first, then
      `settings["model_settings"]` (a `KeyError` when absent), then the union
      (a `TypeError` when the model settings are not a dict). */
  function Flatten(settings: map<string, PyValue>): (r: Result<map<string, PyValue>>)
    ensures r.Raise? <==> !(ModelSettingsKey in settings && settings[ModelSettingsKey].PyDict?)
    ensures r.Raise? ==> r.error == (if ModelSettingsKey in settings then TypeError else KeyError)
    ensures r.Ok? ==>
              var inner := settings[ModelSettingsKey].entries;
              && (forall k :: k in r.value <==> k in inner || (k in settings && !settings[k].PyDict?))
              && (forall k :: k in inner ==> r.value[k] == inner[k])
              && (forall k :: k in settings && !settings[k].PyDict? && k !in inner ==> r.value[k] == settings[k])
              && (ModelSettingsKey in r.value <==> ModelSettingsKey in inner)
  {
    var top := NonDictEntries(settings);
    if ModelSettingsKey !in settings then Raise(KeyError)
    else
      match settings[ModelSettingsKey]
      case PyDict(inner) => Ok(DictUnion(top, inner))
      case _ => Raise(TypeError)
  }

  /** The point of flattening: when the model settings hold no nested dict,
      neither does the result, whatever the top level held. */
  lemma FlattenHasNoDicts(settings: map<string, PyValue>)
    requires ModelSettingsKey in settings && settings[ModelSettingsKey].PyDict?
    requires forall k :: k in settings[ModelSettingsKey].entries ==> !settings[ModelSettingsKey].entries[k].PyDict?
    ensures Flatten(settings).Ok?
    ensures forall k :: k in Flatten(settings).value ==> !Flatten(settings).value[k].PyDict?
  {
  }

  /** Dict-valued top-level entries other than the model settings never reach
      the result: two settings dicts that agree on their non-dict entries and
      on the model settings flatten to the same map. */
  lemma FlattenIgnoresOtherDicts(s1: map<string, PyValue>, s2: map<string, PyValue>)
    requires ModelSettingsKey in s1 && ModelSettingsKey in s2
    requires s1[ModelSettingsKey] == s2[ModelSettingsKey]
    requires NonDictEntries(s1) == NonDictEntries(s2)
    ensures Flatten(s1) == Flatten(s2)
  {
  }
}
