/**
 * The CrossNER converter: tagged-token lines to one record per sentence with
 * lower-cased entity types, each record carrying the rationale ("cot") entry
 * at its own position.
 */
module CrossNerTarget {
  import opened Wrappers
  import opened Text
  import opened Blocks
  import opened Records
  import opened Bio

  const Domains: set<string> := {"literature", "politics", "science", "music", "ai"}

  /** The entity types of a CrossNER domain; no types for any other domain. */
  function GetLabelsByDomain(domain: string): (r: seq<string>)
    ensures r != [] <==> domain in Domains
  {
    if domain == "literature" then
      ["book", "writer", "award", "poem", "event", "magazine",
       "person", "location", "organisation", "country", "misc", "literarygenre"]
    else if domain == "politics" then
      ["politician", "person", "organisation", "politicalparty",
       "event", "election", "country", "location", "misc"]
    else if domain == "science" then
      ["scientist", "person", "university", "organisation",
       "country", "location", "discipline", "enzyme", "protein",
       "chemicalcompound", "chemicalelement", "event", "astronomicalobject",
       "academicjournal", "award", "theory", "misc"]
    else if domain == "music" then
      ["musicgenre", "song", "band", "album", "musicalartist",
       "musicalinstrument", "award", "event", "country", "location",
       "organisation", "person", "misc"]
    else if domain == "ai" then
      ["field", "task", "product", "algorithm", "researcher",
       "metrics", "university", "country", "person", "organisation",
       "location", "misc", "conference", "programlang"]
    else
      []
  }

  /**
   * The converter's accumulator: one empty list per "ai" type, lower-cased.
   * (The source binds the plain list of types instead; see
   * ConvertNerToJsonWithCotAsWritten.)
   */
  const TargetConfig: Config := Config(GetLabelsByDomain("ai"), LowerCase)

  /**
   * Every "ai" type is its own lower-case form, so a "B-" tag finds its
   * list whether the type is written in lower or in upper case.
   */
  lemma TargetKeysFolded()
    ensures forall k :: k in TargetConfig.keys ==>
              Fold(TargetConfig.fold, k) == k && Fold(TargetConfig.fold, Upper(k)) == k
  {
    forall i | 0 <= i < |TargetConfig.keys|
      ensures Lower(TargetConfig.keys[i]) == TargetConfig.keys[i]
    {
      LowerKeeps(TargetConfig.keys[i]);
    }
    forall k | k in TargetConfig.keys
      ensures Fold(TargetConfig.fold, k) == k && Fold(TargetConfig.fold, Upper(k)) == k
    {
      CaseRoundTrip(k);
    }
  }

  // ---------------------------------------------------------------------------
  // Rationale file

  /** Rationale lines, stripped: blank ones separate entries. */
  function CotPiece(line: string): Piece<string> {
    if Strip(line) == [] then Break else Item(Strip(line))
  }

  function CotPieces(lines: seq<string>): (ps: seq<Piece<string>>)
    ensures |ps| == |lines|
  {
    seq(|lines|, i requires 0 <= i < |lines| => CotPiece(lines[i]))
  }

  function JoinAll(blocks: seq<seq<string>>): (r: seq<string>)
    ensures |r| == |blocks|
  {
    seq(|blocks|, i requires 0 <= i < |blocks| => Join(" ", blocks[i]))
  }

  /** The rationale entries: each blank-line separated group of lines, joined by " ". */
  function CotEntries(lines: seq<string>): seq<string> {
    JoinAll(BlocksOf(CotPieces(lines)))
  }

  /** What the rationale reader yields: no rationale file, no entries. */
  function CotData(cotLines: Option<seq<string>>): seq<string> {
    match cotLines
    case None => []
    case Some(lines) => CotEntries(lines)
  }

  /** The rationale entry of the record at position i, "" past the last entry. */
  function CotAt(cots: seq<string>, i: nat): string {
    if i < |cots| then cots[i] else ""
  }

  /**
   * Reads the rationale file: stripped non-blank lines accumulate in the
   * current entry; a blank line closes a non-empty entry; a last entry without
   * a trailing blank line is kept.
   */
  method ReadCot(lines: seq<string>) returns (cotData: seq<string>)
    ensures cotData == CotEntries(lines)
  {
    cotData := [];
    var currentCot: seq<string> := [];
    ghost var closed: seq<seq<string>> := [];
    var i := 0;
    while i < |lines|
      invariant 0 <= i <= |lines|
      invariant Group(CotPieces(lines[..i])) == Grouping(closed, currentCot)
      invariant cotData == JoinAll(closed)
    {
      CotGroupStep(lines, i);
      ghost var next := Advance(Grouping(closed, currentCot), CotPiece(lines[i]));
      var line := Strip(lines[i]);
      if line != [] {
        assert CotPiece(lines[i]) == Item(line);
        currentCot := currentCot + [line];
      } else if currentCot != [] {
        assert CotPiece(lines[i]) == Break;
        JoinAllAppend(closed, currentCot);
        cotData := cotData + [Join(" ", currentCot)];
        closed := closed + [currentCot];
        currentCot := [];
      } else {
        assert CotPiece(lines[i]) == Break;
      }
      assert next == Grouping(closed, currentCot);
      i := i + 1;
    }
    assert lines[..i] == lines;
    if currentCot != [] {
      JoinAllAppend(closed, currentCot);
      cotData := cotData + [Join(" ", currentCot)];
      closed := closed + [currentCot];
    }
  }

  lemma JoinAllAppend(blocks: seq<seq<string>>, b: seq<string>)
    ensures JoinAll(blocks + [b]) == JoinAll(blocks) + [Join(" ", b)]
  {
  }

  lemma CotGroupStep(lines: seq<string>, i: nat)
    requires i < |lines|
    ensures Group(CotPieces(lines[..i + 1])) == Advance(Group(CotPieces(lines[..i])), CotPiece(lines[i]))
  {
    assert CotPieces(lines[..i + 1])[..i] == CotPieces(lines[..i]);
  }

  /** Joining non-empty, trimmed lines gives a non-empty, trimmed entry. */
  lemma {:induction false} JoinTrimmed(parts: seq<string>)
    requires parts != []
    requires forall i :: 0 <= i < |parts| ==> parts[i] != [] && Trimmed(parts[i])
    ensures Join(" ", parts) != [] && Trimmed(Join(" ", parts))
  {
    if |parts| > 1 {
      JoinTrimmed(parts[1..]);
      var s := parts[0] + " " + Join(" ", parts[1..]);
      assert s[0] == parts[0][0];
    }
  }

  /**
   * No rationale entry is empty, whatever runs of blank lines the file holds,
   * none has whitespace at either end, and there are never more entries than
   * non-blank lines.
   */
  lemma CotEntriesShape(lines: seq<string>)
    ensures forall i :: 0 <= i < |CotEntries(lines)| ==>
              CotEntries(lines)[i] != [] && Trimmed(CotEntries(lines)[i])
    ensures |CotEntries(lines)| <= |Items(CotPieces(lines))|
  {
    var ps := CotPieces(lines);
    var bs := BlocksOf(ps);
    BlocksPartitionItems(ps);
    forall i | 0 <= i < |bs| ensures Join(" ", bs[i]) != [] && Trimmed(Join(" ", bs[i])) {
      forall j | 0 <= j < |bs[i]| ensures bs[i][j] != [] && Trimmed(bs[i][j]) {
        FlattenMember(bs, i, j);
        ItemsMember(ps, bs[i][j]);
        var n :| 0 <= n < |ps| && ps[n] == Item(bs[i][j]);
        assert CotPiece(lines[n]) == Item(bs[i][j]);
      }
      JoinTrimmed(bs[i]);
    }
  }

  // ---------------------------------------------------------------------------
  // Converter

  /** Each record gets the rationale entry at its own position. */
  function WithCot(recs: seq<Record>, cots: seq<string>): (r: seq<Record>)
    ensures |r| == |recs|
  {
    seq(|recs|, i requires 0 <= i < |recs| => recs[i].(cot := Some(CotAt(cots, i))))
  }

  lemma WithCotAppend(recs: seq<Record>, rec: Record, cots: seq<string>)
    ensures WithCot(recs + [rec], cots) == WithCot(recs, cots) + [rec.(cot := Some(CotAt(cots, |recs|)))]
  {
  }

  /** The records, with rationale, for a CrossNER file, or the KeyError of a "B-" tag outside the "ai" types. */
  function ConvertWithCot(lines: seq<string>, cotLines: Option<seq<string>>): Result<seq<Record>, Error> {
    match Convert(TargetConfig, lines)
    case Err(e) => Err(e)
    case Ok(recs) => Ok(WithCot(recs, CotData(cotLines)))
  }

  /**
   * The converter: the rationale entries are read first, then the token
   * lines, with the accumulator as the dict `{k: [] for k in labels}` that
   * the reset after each record builds.
   */
  method ConvertNerToJsonWithCot(lines: seq<string>, cotLines: Option<seq<string>>)
    returns (r: Result<seq<Record>, Error>)
    ensures r == ConvertWithCot(lines, cotLines)
  {
    var cotData: seq<string> := [];
    if cotLines.Some? {
      cotData := ReadCot(cotLines.value);
    }
    r := ConvertTokenLines(TargetConfig, lines, cotData);
  }

  /**
   * The loop over the token lines: record i gets rationale entry i, or ""
   * once the entries run out (`cot_data[cot_index] if cot_index <
   * len(cot_data) else ""`).
   */
  method ConvertTokenLines(cfg: Config, lines: seq<string>, cotData: seq<string>)
    returns (r: Result<seq<Record>, Error>)
    ensures r == match Convert(cfg, lines)
                 case Err(e) => Err(e)
                 case Ok(recs) => Ok(WithCot(recs, cotData))
  {
    var data: seq<Record> := [];
    var st := Start(cfg);
    var cotIndex := 0;
    var i := 0;
    while i < |lines|
      invariant 0 <= i <= |lines|
      invariant Run(cfg, lines[..i]) == Ok(st)
      invariant cotIndex == |st.data| && data == WithCot(st.data, cotData)
      invariant forall k :: k in st.labels <==> k in cfg.keys
    {
      var next := ProcessLine(cfg, st, lines[i]);
      if next.Err? {
        StepErrorFinal(cfg, lines, i, st);
        return Err(next.error);
      }
      StepData(cfg, st, lines[i]);
      if |next.value.data| != |st.data| {
        // the sentence just closed gets `cot_data[cot_index]`, or ""
        var cotInfo := if cotIndex < |cotData| then cotData[cotIndex] else "";
        WithCotAppend(st.data, next.value.data[cotIndex], cotData);
        data := data + [next.value.data[cotIndex].(cot := Some(cotInfo))];
        cotIndex := cotIndex + 1;
      }
      RunStepOk(cfg, lines, i, st, next.value);
      st := next.value;
      i := i + 1;
    }
    assert lines[..i] == lines;
    if st.words != [] {
      var filtered := NonEmptyEntries(StripSpans(st.labels));
      var cotInfo := if cotIndex < |cotData| then cotData[cotIndex] else "";
      data := data + [Record(Join(" ", st.words), filtered, Some(cotInfo))];
      WithCotAppend(st.data, Record(Join(" ", st.words), filtered, None), cotData);
    }
    r := Ok(data);
  }

  /**
   * What the converter returns: KeyError exactly when a "B-" tag names a type
   * outside the "ai" types; otherwise one record per sentence, as
   * Bio.SentenceRecord describes it, except that every record carries a
   * "cot" field: record i gets rationale entry i, or "" when there is none
   * (in particular when no rationale file is given).
   */
  lemma ConvertWithCotSentences(lines: seq<string>, cotLines: Option<seq<string>>)
    ensures ConvertWithCot(lines, cotLines).Ok? <==>
              forall i :: 0 <= i < |lines| && Classify(lines[i]).Item? ==> Known(TargetConfig, Classify(lines[i]).value)
    ensures ConvertWithCot(lines, cotLines).Err? ==>
              ConvertWithCot(lines, cotLines).error.KeyError? && ConvertWithCot(lines, cotLines).error.key !in TargetConfig.keys
    ensures ConvertWithCot(lines, cotLines).Ok? ==>
              var recs := ConvertWithCot(lines, cotLines).value;
              var bs := BlocksOf(Pieces(lines));
              |recs| == |bs| &&
              forall i :: 0 <= i < |bs| ==>
                SentenceRecord(TargetConfig, bs[i], recs[i].(cot := None)) &&
                recs[i].cot == Some(CotAt(CotData(cotLines), i))
  {
    ConvertSentences(TargetConfig, lines);
    if Convert(TargetConfig, lines).Ok? {
      var plain := Convert(TargetConfig, lines).value;
      var recs := WithCot(plain, CotData(cotLines));
      forall i | 0 <= i < |recs| ensures recs[i].(cot := None) == plain[i] {
      }
    }
  }

  // ---------------------------------------------------------------------------
  // As written

  /**
   * The converter as the source writes it: the accumulator is the plain list
   * that get_labels_by_domain returns, so indexing it with a type string
   * (appending for "B-", testing for a known "I-", building the record at a
   * sentence end) raises TypeError. The rationale file has no bearing on the
   * outcome and is not read here. Any input with a token line fails.
   */
  method ConvertNerToJsonWithCotAsWritten(lines: seq<string>) returns (r: Result<seq<Record>, Error>)
    ensures r.Err? <==> exists i :: 0 <= i < |lines| && IsTokenLine(lines[i])
    ensures r.Err? ==> r.error == TypeError
    ensures r.Ok? ==> r.value == []
  {
    r := ConvertWithListAccumulator(lines, GetLabelsByDomain("ai"));
  }

  /** Whether one of the first n entries satisfies p. */
  ghost predicate AnyOf<T>(xs: seq<T>, p: T -> bool, n: nat)
    requires n <= |xs|
  {
    n > 0 && (AnyOf(xs, p, n - 1) || p(xs[n - 1]))
  }

  lemma {:induction false} AnyOfExists<T>(xs: seq<T>, p: T -> bool, n: nat)
    requires n <= |xs|
    ensures AnyOf(xs, p, n) <==> exists i :: 0 <= i < n && p(xs[i])
  {
    if n > 0 {
      AnyOfExists(xs, p, n - 1);
    }
  }

  /** The loop of the converter as written, with the list `labels` as its accumulator. */
  method ConvertWithListAccumulator(lines: seq<string>, labels: seq<string>) returns (r: Result<seq<Record>, Error>)
    requires labels != []
    ensures r.Err? <==> exists i :: 0 <= i < |lines| && IsTokenLine(lines[i])
    ensures r.Err? ==> r.error == TypeError
    ensures r.Ok? ==> r.value == []
  {
    var sentences: seq<string> := [];
    var i := 0;
    while i < |lines|
      invariant 0 <= i <= |lines|
      invariant sentences != [] <==> AnyOf(lines, IsTokenLine, i)
    {
      var failed;
      failed, sentences := ListAccumulatorLine(lines[i], labels, sentences);
      i := i + 1;
      if failed {
        AnyOfExists(lines, IsTokenLine, i);
        return Err(TypeError);
      }
    }
    AnyOfExists(lines, IsTokenLine, i);
    if sentences != [] {
      return Err(TypeError);
    }
    r := Ok([]);
  }

  /**
   * One line of the converter as written: whether it raises TypeError, and
   * the sentence words after it. Only a token line adds a word; raising needs
   * a word, of this line or an earlier one.
   */
  method ListAccumulatorLine(line: string, labels: seq<string>, sentences: seq<string>) returns (failed: bool, sentences': seq<string>)
    requires labels != []
    ensures IsTokenLine(line) ==> sentences' != []
    ensures !IsTokenLine(line) ==> sentences' == sentences
    ensures failed ==> sentences' != []
  {
    sentences' := sentences;
    failed := false;
    if Strip(line) != [] {
      if !StartsWith(line, DocStart) {
        var word, tag := SplitTokenLine(line);
        sentences' := sentences + [word];
        if StartsWith(tag, "B-") {
          // labels[entity_type].append(word) on a list
          failed := true;
        } else if StartsWith(tag, "I-") {
          var entityType := Lower(Drop(tag, 2));
          // labels[entity_type] on a list, reached once `in` succeeds
          failed := entityType in labels;
        }
      }
    } else {
      // labels[key] for key in labels: the first element is a string
      failed := sentences != [];
    }
  }
}
