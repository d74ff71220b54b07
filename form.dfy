/** The answers entered so far, keyed by field name. */
module Form {

  type FormData = map<string, string>

  /** JavaScript's `!!formData[key]`: the key is present and its value is not the empty string. */
  predicate Filled(form: FormData, key: string) {
    key in form && form[key] != ""
  }

  /** `{ ...formData, [key]: value }`: the single-key merge performed by a field change. */
  function Merge(form: FormData, key: string, value: string): (r: FormData)
    ensures key in r && r[key] == value
    ensures r.Keys == form.Keys + {key}
    ensures forall k :: k in form && k != key ==> r[k] == form[k]
  {
    form[key := value]
  }

  /** Setting the same field twice keeps only the later value. */
  lemma MergeTwice(form: FormData, key: string, first: string, second: string)
    ensures Merge(Merge(form, key, first), key, second) == Merge(form, key, second)
  {
  }

  /** Changes to different fields do not interfere with each other. */
  lemma MergeCommutes(form: FormData, k1: string, v1: string, k2: string, v2: string)
    requires k1 != k2
    ensures Merge(Merge(form, k1, v1), k2, v2) == Merge(Merge(form, k2, v2), k1, v1)
  {
  }

  /** Whether a field counts as filled after a change depends only on the value entered. */
  lemma FilledAfterMerge(form: FormData, key: string, value: string, k: string)
    ensures Filled(Merge(form, key, value), k) <==> if k == key then value != "" else Filled(form, k)
  {
  }
}
