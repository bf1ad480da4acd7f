/**
 * The CoNLL-2003 converter: tagged-token lines to one record per sentence,
 * with the four upper-case CoNLL entity types.
 */
module ConllSource {
  import opened Wrappers
  import opened Text
  import opened Records
  import opened Blocks
  import opened Bio

  const SourceKeys: seq<string> := ["PER", "LOC", "ORG", "MISC"]

  /** Upper-cased types, one span list per CoNLL type. */
  const SourceConfig: Config := Config(SourceKeys, UpperCase)

  /**
   * Every CoNLL type is its own upper-case form, so a "B-" tag finds its
   * list whether the type is written in upper or in lower case.
   */
  lemma SourceKeysFolded()
    ensures forall k :: k in SourceKeys ==>
              Fold(SourceConfig.fold, k) == k && Fold(SourceConfig.fold, Lower(k)) == k
  {
    forall k | k in SourceKeys
      ensures Fold(SourceConfig.fold, k) == k && Fold(SourceConfig.fold, Lower(k)) == k
    {
      UpperKeeps(k);
      CaseRoundTrip(k);
    }
  }

  /**
   * The records for the lines of a CoNLL file, or the KeyError raised by a
   * "B-" tag of a type other than PER, LOC, ORG and MISC. What the records
   * hold, sentence by sentence, is Bio.ConvertSentences.
   */
  method ConvertToJsonFormat(lines: seq<string>) returns (r: Result<seq<Record>, Error>)
    ensures r == Convert(SourceConfig, lines)
  {
    var st := Start(SourceConfig);
    var i := 0;
    while i < |lines|
      invariant 0 <= i <= |lines|
      invariant Run(SourceConfig, lines[..i]) == Ok(st)
      invariant forall k :: k in st.labels <==> k in SourceKeys
    {
      var next := ProcessLine(SourceConfig, st, lines[i]);
      if next.Err? {
        StepErrorFinal(SourceConfig, lines, i, st);
        return Err(next.error);
      }
      RunStepOk(SourceConfig, lines, i, st, next.value);
      st := next.value;
      i := i + 1;
    }
    assert lines[..i] == lines;
    var data := st.data;
    if st.words != [] {
      var filtered := NonEmptyEntries(StripSpans(st.labels));
      data := data + [Record(Join(" ", st.words), filtered, None)];
    }
    r := Ok(data);
  }
}
