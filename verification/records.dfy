/** The JSON-lines record the converters emit and the metrics consume. */
module Records {
  import opened Wrappers

  /** Entity type to the ordered list of its entity strings. */
  type Labels = map<string, seq<string>>

  /**
   * {"text": ..., "label": {...}} (field `labels` here, `label` being a Dafny keyword) with an optional "cot" field (present, as a
   * string, only in the records of the rationale-aligning converter).
   */
  datatype Record = Record(text: string, labels: Labels, cot: Option<string>)

  /** One empty list per key: the accumulator a converter starts a sentence with. */
  function EmptyLabels(keys: seq<string>): Labels {
    map k | k in keys :: []
  }

  /** Only the entries whose list is non-empty (`{k: v for k, v in d.items() if v}`). */
  function NonEmptyEntries(labels: Labels): Labels {
    map k | k in labels && labels[k] != [] :: labels[k]
  }

  /** Rebuilding `{k: [] for k in labels}` from a map with the keys of keys gives the initial accumulator. */
  lemma ResetIsEmpty(labels: Labels, keys: seq<string>)
    requires forall k :: k in labels <==> k in keys
    ensures (map k | k in labels :: []) == EmptyLabels(keys)
  {
  }
}
