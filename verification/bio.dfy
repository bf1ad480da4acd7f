/**
 * The BIO span decoder shared by the two dataset converters: a line-driven
 * state machine (words of the open sentence, per-type span lists, records
 * emitted so far) and, beside it, the per-sentence view that says what each
 * record holds.
 */
module Bio {
  import opened Wrappers
  import opened Text
  import opened Blocks
  import opened Records

  /** One tagged-token line: the first field and the last field. */
  datatype Token = Token(word: string, tag: string)

  /** How the entity type after "B-"/"I-" is normalised before lookup. */
  datatype Case = UpperCase | LowerCase

  /** The span-list keys a converter starts every sentence with, and its case rule. */
  datatype Config = Config(keys: seq<string>, fold: Case)

  /**
   * KeyError: a "B-" tag named a type that has no span list.
   * TypeError: a list was indexed with a string (only the converter whose
   * accumulator is a list raises it).
   */
  datatype Error = KeyError(key: string) | TypeError

  const DocStart: string := "-DOCSTART-"

  /** `parts = line.strip().split(); word = parts[0]; tag = parts[-1]`. */
  function ParseToken(line: string): (t: Token)
    requires Strip(line) != []
    ensures IsWord(t.word) && IsWord(t.tag)
  {
    var s := Strip(line);
    assert !IsSpace(s[0]);
    var parts := Words(s);
    Token(parts[0], parts[|parts| - 1])
  }

  /**
   * The word is the first whitespace-separated field of the line and the tag
   * its last: stripping first changes no field.
   */
  lemma ParseTokenWords(line: string)
    requires Strip(line) != []
    ensures Words(line) != []
    ensures ParseToken(line) == Token(Words(line)[0], Words(line)[|Words(line)| - 1])
  {
    WordsStrip(line);
  }

  /**
   * A line of fields separated by single spaces, with any whitespace around
   * it, gives its first field as the word and its last as the tag; a line of
   * one field gives that field as both.
   */
  lemma ParseTokenJoin(p: string, ws: seq<string>, q: string)
    requires AllSpace(p) && AllSpace(q) && ws != []
    requires forall i :: 0 <= i < |ws| ==> IsWord(ws[i])
    ensures Strip(p + Join(" ", ws) + q) != []
    ensures ParseToken(p + Join(" ", ws) + q) == Token(ws[0], ws[|ws| - 1])
  {
    var line := p + Join(" ", ws) + q;
    WordsAround(p, ws, q);
    WordsStrip(line);
    ParseTokenWords(line);
  }

  /** Lines 13-15 of both converters: the first and the last whitespace-separated field. */
  method SplitTokenLine(line: string) returns (word: string, tag: string)
    requires Strip(line) != []
    ensures Words(line) != [] && word == Words(line)[0] && tag == Words(line)[|Words(line)| - 1]
  {
    var stripped := Strip(line);
    assert !IsSpace(stripped[0]);
    var parts := Words(stripped);
    word := parts[0];
    tag := parts[|parts| - 1];
    WordsStrip(line);
  }

  /** A token line: neither blank nor a "-DOCSTART-" line. */
  predicate IsTokenLine(line: string) {
    Strip(line) != [] && !StartsWith(line, DocStart)
  }

  /** Blank lines separate sentences; "-DOCSTART-" lines (tested on the raw line) are skipped. */
  function Classify(line: string): Piece<Token> {
    if Strip(line) == [] then Break
    else if StartsWith(line, DocStart) then Skip
    else Item(ParseToken(line))
  }

  /** Exactly the token lines carry a token. */
  lemma TokenLineItem(line: string)
    ensures Classify(line).Item? <==> IsTokenLine(line)
  {
  }

  function Pieces(lines: seq<string>): (ps: seq<Piece<Token>>)
    ensures |ps| == |lines|
  {
    seq(|lines|, i requires 0 <= i < |lines| => Classify(lines[i]))
  }

  predicate IsBegin(tag: string) { StartsWith(tag, "B-") }
  predicate IsInside(tag: string) { StartsWith(tag, "I-") }

  function Fold(c: Case, s: string): string {
    match c
    case UpperCase => Upper(s)
    case LowerCase => Lower(s)
  }

  /** The entity type a "B-"/"I-" tag names, after case normalisation (`tag[2:]`). */
  function EntityType(cfg: Config, tag: string): string {
    Fold(cfg.fold, Drop(tag, 2))
  }

  /** t opens a span of type k. */
  predicate Opens(cfg: Config, t: Token, k: string) {
    IsBegin(t.tag) && EntityType(cfg, t.tag) == k
  }

  /** t raises no KeyError: it is not a "B-" tag of a type without a span list. */
  predicate Known(cfg: Config, t: Token) {
    IsBegin(t.tag) ==> EntityType(cfg, t.tag) in cfg.keys
  }

  predicate AllKnown(cfg: Config, toks: seq<Token>) {
    forall i :: 0 <= i < |toks| ==> Known(cfg, toks[i])
  }

  /** How many tokens of toks open a span of type k. */
  function CountOpens(cfg: Config, toks: seq<Token>, k: string): nat {
    if toks == [] then 0
    else CountOpens(cfg, toks[..|toks| - 1], k) + if Opens(cfg, toks[|toks| - 1], k) then 1 else 0
  }

  function WordsOf(toks: seq<Token>): (ws: seq<string>)
    ensures |ws| == |toks|
  {
    seq(|toks|, i requires 0 <= i < |toks| => toks[i].word)
  }

  /** The last span, extended by `" " + word`. */
  function Extend(spans: seq<string>, word: string): (r: seq<string>)
    requires spans != []
    ensures |r| == |spans|
  {
    spans[..|spans| - 1] + [spans[|spans| - 1] + " " + word]
  }

  /**
   * One token's effect on the span lists: "B-k" appends a new span to k's
   * list (KeyError when k has none); "I-k" extends the last span of k when
   * there is one and is ignored otherwise; any other tag changes nothing.
   */
  function Tag(cfg: Config, labels: Labels, t: Token): (r: Result<Labels, Error>)
    ensures r.Err? <==> IsBegin(t.tag) && EntityType(cfg, t.tag) !in labels
    ensures r.Ok? ==> r.value.Keys == labels.Keys
    ensures r.Ok? ==> forall k :: k in labels ==>
              |r.value[k]| == |labels[k]| + if Opens(cfg, t, k) then 1 else 0
  {
    if IsBegin(t.tag) then
      var k := EntityType(cfg, t.tag);
      if k in labels then Ok(labels[k := labels[k] + [t.word]]) else Err(KeyError(k))
    else if IsInside(t.tag) then
      var k := EntityType(cfg, t.tag);
      if k in labels && labels[k] != [] then Ok(labels[k := Extend(labels[k], t.word)]) else Ok(labels)
    else Ok(labels)
  }

  /**
   * The in-place update both converters perform for one token line: append
   * a new span for "B-", extend the last span (`labels[k][-1] += " " + word`)
   * for "I-". It does to the span lists what Tag says.
   */
  method UpdateLabels(cfg: Config, labels: Labels, word: string, tag: string) returns (r: Result<Labels, Error>)
    ensures r == Tag(cfg, labels, Token(word, tag))
  {
    r := Ok(labels);
    if StartsWith(tag, "B-") {
      var entity := Fold(cfg.fold, Drop(tag, 2));
      if entity !in labels {
        return Err(KeyError(entity));
      }
      r := Ok(labels[entity := labels[entity] + [word]]);
    } else if StartsWith(tag, "I-") {
      var entity := Fold(cfg.fold, Drop(tag, 2));
      if entity in labels && labels[entity] != [] {
        var spans := labels[entity];
        r := Ok(labels[entity := spans[..|spans| - 1] + [spans[|spans| - 1] + " " + word]]);
      }
    }
  }

  /** The span lists after the tokens toks, starting from labels; the first error ends it. */
  function DecodeFrom(cfg: Config, labels: Labels, toks: seq<Token>): Result<Labels, Error> {
    if toks == [] then Ok(labels)
    else match DecodeFrom(cfg, labels, toks[..|toks| - 1])
      case Err(e) => Err(e)
      case Ok(l) => Tag(cfg, l, toks[|toks| - 1])
  }

  /** The span lists of one sentence. */
  function Decode(cfg: Config, toks: seq<Token>): Result<Labels, Error> {
    DecodeFrom(cfg, EmptyLabels(cfg.keys), toks)
  }

  /** The strip applied to every span when a record is emitted. */
  function StripSpans(labels: Labels): Labels {
    map k | k in labels :: seq(|labels[k]|, i requires 0 <= i < |labels[k]| => Strip(labels[k][i]))
  }

  /** `{"text": " ".join(words), "label": {k: [v.strip() ...] for k if labels[k]}}`. */
  function Emit(words: seq<string>, labels: Labels): Record {
    Record(Join(" ", words), NonEmptyEntries(StripSpans(labels)), None)
  }

  /** The converter's loop variables: sentence words, span lists, records emitted. */
  datatype State = State(words: seq<string>, labels: Labels, data: seq<Record>)

  function Start(cfg: Config): State {
    State([], EmptyLabels(cfg.keys), [])
  }

  /** One line of the input. */
  function Step(cfg: Config, st: State, line: string): Result<State, Error> {
    match Classify(line)
    case Break =>
      if st.words == [] then Ok(st)
      else Ok(State([], EmptyLabels(cfg.keys), st.data + [Emit(st.words, st.labels)]))
    case Skip => Ok(st)
    case Item(t) =>
      match Tag(cfg, st.labels, t)
      case Err(e) => Err(e)
      case Ok(l) => Ok(State(st.words + [t.word], l, st.data))
  }

  function RunFrom(cfg: Config, st: State, lines: seq<string>): Result<State, Error> {
    if lines == [] then Ok(st)
    else match RunFrom(cfg, st, lines[..|lines| - 1])
      case Err(e) => Err(e)
      case Ok(s) => Step(cfg, s, lines[|lines| - 1])
  }

  function Run(cfg: Config, lines: seq<string>): Result<State, Error> {
    RunFrom(cfg, Start(cfg), lines)
  }

  /** End of input: a sentence still open is emitted too. */
  function Finish(st: State): seq<Record> {
    if st.words == [] then st.data else st.data + [Emit(st.words, st.labels)]
  }

  /** The records the converter returns for the given lines, or the error it raises. */
  function Convert(cfg: Config, lines: seq<string>): Result<seq<Record>, Error> {
    match Run(cfg, lines)
    case Err(e) => Err(e)
    case Ok(st) => Ok(Finish(st))
  }

  /**
   * The body of both converters' loops, for one line: a token line adds its
   * word and updates the span lists (or raises); a blank line ending a
   * sentence emits its record and resets; anything else changes nothing.
   */
  method ProcessLine(cfg: Config, st: State, line: string) returns (r: Result<State, Error>)
    requires forall k :: k in st.labels <==> k in cfg.keys
    ensures r == Step(cfg, st, line)
    ensures r.Ok? ==> forall k :: k in r.value.labels <==> k in cfg.keys
  {
    if Strip(line) != [] {
      if !StartsWith(line, DocStart) {
        var word, tag := SplitTokenLine(line);
        ParseTokenWords(line);
        assert Classify(line) == Item(Token(word, tag));
        var updated := UpdateLabels(cfg, st.labels, word, tag);
        if updated.Err? {
          return Err(updated.error);
        }
        r := Ok(State(st.words + [word], updated.value, st.data));
      } else {
        assert Classify(line) == Skip;
        r := Ok(st);
      }
    } else if st.words != [] {
      var filtered := NonEmptyEntries(StripSpans(st.labels));
      ResetIsEmpty(st.labels, cfg.keys);
      r := Ok(State([], map key | key in st.labels :: [], st.data + [Record(Join(" ", st.words), filtered, None)]));
    } else {
      r := Ok(st);
    }
  }

  // ---------------------------------------------------------------------------
  // One sentence

  /**
   * A sentence decodes without error exactly when none of its "B-" tags names
   * a type outside the keys; then every key keeps a list, and the list of k
   * holds one span per "B-k" tag.
   */
  lemma {:induction false} DecodeCounts(cfg: Config, toks: seq<Token>)
    ensures Decode(cfg, toks).Ok? <==> AllKnown(cfg, toks)
    ensures Decode(cfg, toks).Err? ==>
              Decode(cfg, toks).error.KeyError? && Decode(cfg, toks).error.key !in cfg.keys
    ensures Decode(cfg, toks).Ok? ==> forall k :: k in Decode(cfg, toks).value <==> k in cfg.keys
    ensures Decode(cfg, toks).Ok? ==> forall k :: k in cfg.keys ==>
              |Decode(cfg, toks).value[k]| == CountOpens(cfg, toks, k)
  {
    if toks != [] {
      var p := toks[..|toks| - 1];
      var t := toks[|toks| - 1];
      DecodeCounts(cfg, p);
      assert forall i :: 0 <= i < |p| ==> p[i] == toks[i];
      if Decode(cfg, p).Ok? {
        var l := Decode(cfg, p).value;
        var r := Tag(cfg, l, t);
        if r.Err? {
          assert !Known(cfg, toks[|toks| - 1]);
        } else {
          assert AllKnown(cfg, toks);
        }
      } else {
        assert !AllKnown(cfg, toks);
      }
    }
  }

  /** Decoding a + b decodes a, then continues with b. */
  lemma {:induction false} DecodeFromAppend(cfg: Config, labels: Labels, a: seq<Token>, b: seq<Token>)
    ensures DecodeFrom(cfg, labels, a + b) ==
            match DecodeFrom(cfg, labels, a)
            case Err(e) => Err(e)
            case Ok(l) => DecodeFrom(cfg, l, b)
    decreases |b|
  {
    if b == [] {
      assert a + b == a;
    } else {
      var b' := b[..|b| - 1];
      assert (a + b)[..|a + b| - 1] == a + b';
      DecodeFromAppend(cfg, labels, a, b');
    }
  }

  /**
   * An "I-k" tag with no "B-k" earlier in its sentence creates no span and
   * raises nothing: the sentence decodes as if the token were absent.
   */
  lemma OrphanInsideIgnored(cfg: Config, p: seq<Token>, t: Token, s: seq<Token>)
    requires IsInside(t.tag)
    requires CountOpens(cfg, p, EntityType(cfg, t.tag)) == 0
    ensures Decode(cfg, p + [t] + s) == Decode(cfg, p + s)
  {
    var e := EmptyLabels(cfg.keys);
    DecodeCounts(cfg, p);
    DecodeFromAppend(cfg, e, p + [t], s);
    DecodeFromAppend(cfg, e, p, [t]);
    DecodeFromAppend(cfg, e, p, s);
    assert (p + [t])[..|p|] == p;
    assert !IsBegin(t.tag) by {
      assert t.tag[..2] == "I-";
    }
  }

  /**
   * An "I-k" tag after at least one "B-k" of its sentence, whatever tokens lie
   * between, appends `" " + word` to the last span of k and changes nothing else.
   */
  lemma InsideExtendsLastSpan(cfg: Config, p: seq<Token>, t: Token)
    requires IsInside(t.tag) && Decode(cfg, p).Ok?
    requires CountOpens(cfg, p, EntityType(cfg, t.tag)) > 0
    ensures var l := Decode(cfg, p).value;
            var k := EntityType(cfg, t.tag);
            k in l && l[k] != [] &&
            Decode(cfg, p + [t]) == Ok(l[k := l[k][..|l[k]| - 1] + [l[k][|l[k]| - 1] + " " + t.word]])
  {
    DecodeCounts(cfg, p);
    var k := EntityType(cfg, t.tag);
    assert k in cfg.keys by {
      CountOpensWitness(cfg, p, k);
    }
    assert (p + [t])[..|p|] == p;
    assert !IsBegin(t.tag) by {
      assert t.tag[..2] == "I-";
    }
  }

  /**
   * A "B-k" tag of a known type, whatever tokens came before it in its
   * sentence, appends a new span holding just its word to the list of k and
   * changes no other list.
   */
  lemma BeginOpensSpan(cfg: Config, p: seq<Token>, t: Token)
    requires IsBegin(t.tag) && EntityType(cfg, t.tag) in cfg.keys && Decode(cfg, p).Ok?
    ensures var l := Decode(cfg, p).value;
            var k := EntityType(cfg, t.tag);
            k in l && Decode(cfg, p + [t]) == Ok(l[k := l[k] + [t.word]])
  {
    DecodeCounts(cfg, p);
    assert (p + [t])[..|p|] == p;
  }

  /**
   * A tag that is neither "B-" nor "I-" (such as "O") opens, extends and
   * raises nothing: the sentence decodes as if the token were absent.
   */
  lemma OutsideIgnored(cfg: Config, p: seq<Token>, t: Token, s: seq<Token>)
    requires !IsBegin(t.tag) && !IsInside(t.tag)
    ensures Decode(cfg, p + [t] + s) == Decode(cfg, p + s)
  {
    var e := EmptyLabels(cfg.keys);
    DecodeFromAppend(cfg, e, p + [t], s);
    DecodeFromAppend(cfg, e, p, [t]);
    DecodeFromAppend(cfg, e, p, s);
    assert (p + [t])[..|p|] == p;
  }

  /** A counted "B-k" tag names a key when the sentence decoded. */
  lemma {:induction false} CountOpensWitness(cfg: Config, p: seq<Token>, k: string)
    requires CountOpens(cfg, p, k) > 0 && AllKnown(cfg, p)
    ensures k in cfg.keys
  {
    var q := p[..|p| - 1];
    if !Opens(cfg, p[|p| - 1], k) {
      assert AllKnown(cfg, q) by {
        assert forall i :: 0 <= i < |q| ==> q[i] == p[i];
      }
      CountOpensWitness(cfg, q, k);
    }
  }

  /** A span that is whitespace-free at both ends and not empty. */
  predicate SpanShaped(s: string) {
    s != [] && Trimmed(s)
  }

  predicate WordsAreFields(toks: seq<Token>) {
    forall i :: 0 <= i < |toks| ==> IsWord(toks[i].word)
  }

  /**
   * Spans are single-space joins of whitespace-free words, so none is empty
   * and none has whitespace at either end.
   */
  lemma {:induction false} SpansShaped(cfg: Config, toks: seq<Token>)
    requires WordsAreFields(toks) && Decode(cfg, toks).Ok?
    ensures forall k, i :: k in Decode(cfg, toks).value && 0 <= i < |Decode(cfg, toks).value[k]| ==>
              SpanShaped(Decode(cfg, toks).value[k][i])
  {
    if toks != [] {
      var p := toks[..|toks| - 1];
      var t := toks[|toks| - 1];
      assert forall i :: 0 <= i < |p| ==> p[i] == toks[i];
      SpansShaped(cfg, p);
      var l := Decode(cfg, p).value;
      if IsInside(t.tag) && !IsBegin(t.tag) {
        var k := EntityType(cfg, t.tag);
        if k in l && l[k] != [] {
          var last := l[k][|l[k]| - 1];
          var ext := last + " " + t.word;
          assert ext[0] == last[0];
          assert ext[|ext| - 1] == t.word[|t.word| - 1];
        }
      }
    }
  }

  /** The strip applied at emission changes no span. */
  lemma StripSpansNoOp(labels: Labels)
    requires forall k, i :: k in labels && 0 <= i < |labels[k]| ==> SpanShaped(labels[k][i])
    ensures StripSpans(labels) == labels
  {
    forall k | k in labels ensures StripSpans(labels)[k] == labels[k] {
      forall i | 0 <= i < |labels[k]| ensures Strip(labels[k][i]) == labels[k][i] {
        StripTrimmed(labels[k][i]);
      }
    }
  }

  // ---------------------------------------------------------------------------
  // The whole input

  /** The run over the first i + 1 lines is the run over the first i, then one step. */
  lemma RunPrefixStep(cfg: Config, lines: seq<string>, i: nat)
    requires i < |lines|
    ensures Run(cfg, lines[..i + 1]) ==
            match Run(cfg, lines[..i])
            case Err(e) => Err(e)
            case Ok(s) => Step(cfg, s, lines[i])
  {
    assert lines[..i + 1][..i] == lines[..i];
  }

  /** An error ends the run: later lines cannot undo it. */
  lemma RunErrorFinal(cfg: Config, lines: seq<string>, i: nat)
    requires i <= |lines| && Run(cfg, lines[..i]).Err?
    ensures Convert(cfg, lines) == Err(Run(cfg, lines[..i]).error)
  {
    RunFromAppend(cfg, Start(cfg), lines[..i], lines[i..]);
    assert lines[..i] + lines[i..] == lines;
  }

  /** A line that steps without error extends the run over the lines before it. */
  lemma RunStepOk(cfg: Config, lines: seq<string>, i: nat, st: State, st': State)
    requires i < |lines| && Run(cfg, lines[..i]) == Ok(st) && Step(cfg, st, lines[i]) == Ok(st')
    ensures Run(cfg, lines[..i + 1]) == Ok(st')
  {
    RunPrefixStep(cfg, lines, i);
  }

  /** A line emits at most one record, appended to the records so far. */
  lemma StepData(cfg: Config, st: State, line: string)
    ensures Step(cfg, st, line).Ok? ==>
              var d := Step(cfg, st, line).value.data;
              d == st.data || (|d| == |st.data| + 1 && d == st.data + [d[|st.data|]])
  {
  }

  /** A line that raises ends the conversion with that error. */
  lemma StepErrorFinal(cfg: Config, lines: seq<string>, i: nat, st: State)
    requires i < |lines| && Run(cfg, lines[..i]) == Ok(st) && Step(cfg, st, lines[i]).Err?
    ensures Convert(cfg, lines) == Err(Step(cfg, st, lines[i]).error)
  {
    RunPrefixStep(cfg, lines, i);
    RunErrorFinal(cfg, lines, i + 1);
  }

  /** Running a + b runs a, then b from where a left off. */
  lemma {:induction false} RunFromAppend(cfg: Config, st: State, a: seq<string>, b: seq<string>)
    ensures RunFrom(cfg, st, a + b) ==
            match RunFrom(cfg, st, a)
            case Err(e) => Err(e)
            case Ok(s) => RunFrom(cfg, s, b)
    decreases |b|
  {
    if b == [] {
      assert a + b == a;
    } else {
      var b' := b[..|b| - 1];
      assert (a + b)[..|a + b| - 1] == a + b';
      RunFromAppend(cfg, st, a, b');
    }
  }

  /**
   * The loop state st agrees with the grouping g of the lines read so far:
   * one record per closed sentence, and the open sentence's words and span
   * lists are those of its tokens.
   */
  ghost predicate Tracks(cfg: Config, st: State, g: Grouping<Token>) {
    && st.words == WordsOf(g.pending)
    && Decode(cfg, g.pending) == Ok(st.labels)
    && |st.data| == |g.done|
    && forall i :: 0 <= i < |g.done| ==>
         Decode(cfg, g.done[i]).Ok? && st.data[i] == Emit(WordsOf(g.done[i]), Decode(cfg, g.done[i]).value)
  }

  /** One line keeps the state in step with the grouping, or fails on an unknown "B-" type. */
  lemma StepTracks(cfg: Config, st: State, g: Grouping<Token>, line: string)
    requires Tracks(cfg, st, g)
    ensures Step(cfg, st, line).Err? <==> Classify(line).Item? && !Known(cfg, Classify(line).value)
    ensures Step(cfg, st, line).Err? ==>
              Step(cfg, st, line).error.KeyError? && Step(cfg, st, line).error.key !in cfg.keys
    ensures Step(cfg, st, line).Ok? ==> Tracks(cfg, Step(cfg, st, line).value, Advance(g, Classify(line)))
  {
    DecodeCounts(cfg, g.pending);
    match Classify(line)
    case Break =>
      BreakTracks(cfg, st, g);
    case Skip =>
    case Item(t) =>
      if Tag(cfg, st.labels, t).Ok? {
        ItemTracks(cfg, st, g, t);
      }
  }

  /** A blank line closes the open sentence, in the state and in the grouping alike. */
  lemma BreakTracks(cfg: Config, st: State, g: Grouping<Token>)
    requires Tracks(cfg, st, g)
    ensures Tracks(cfg, if st.words == [] then st else State([], EmptyLabels(cfg.keys), st.data + [Emit(st.words, st.labels)]),
                   Advance(g, Break))
  {
    if st.words != [] {
      assert Decode(cfg, []) == Ok(EmptyLabels(cfg.keys));
      var done' := g.done + [g.pending];
      assert done'[|g.done|] == g.pending;
    }
  }

  /** A token line adds its word and its tag to the open sentence. */
  lemma ItemTracks(cfg: Config, st: State, g: Grouping<Token>, t: Token)
    requires Tracks(cfg, st, g) && Tag(cfg, st.labels, t).Ok?
    ensures Tracks(cfg, State(st.words + [t.word], Tag(cfg, st.labels, t).value, st.data), Advance(g, Item(t)))
  {
    var pending' := g.pending + [t];
    assert pending'[..|pending'| - 1] == g.pending;
    assert WordsOf(pending') == st.words + [t.word];
  }

  /**
   * The state after any prefix of the input, in terms of its sentences (see
   * Tracks); the run fails exactly when some token opens a span of a type
   * without a span list.
   */
  lemma {:induction false} RunTracksSentences(cfg: Config, lines: seq<string>)
    ensures Run(cfg, lines).Ok? <==> AllKnown(cfg, Items(Pieces(lines)))
    ensures Run(cfg, lines).Err? ==>
              Run(cfg, lines).error.KeyError? && Run(cfg, lines).error.key !in cfg.keys
    ensures Run(cfg, lines).Ok? ==> Tracks(cfg, Run(cfg, lines).value, Group(Pieces(lines)))
  {
    if lines != [] {
      RunTracksSentences(cfg, lines[..|lines| - 1]);
      RunTracksLast(cfg, lines);
    } else {
      assert Pieces(lines) == [];
    }
  }

  /** The run over the input so far agrees with its sentences (see RunTracksSentences). */
  ghost predicate RunAgrees(cfg: Config, lines: seq<string>) {
    && (Run(cfg, lines).Ok? <==> AllKnown(cfg, Items(Pieces(lines))))
    && (Run(cfg, lines).Err? ==> Run(cfg, lines).error.KeyError? && Run(cfg, lines).error.key !in cfg.keys)
    && (Run(cfg, lines).Ok? ==> Tracks(cfg, Run(cfg, lines).value, Group(Pieces(lines))))
  }

  /** The agreement carries over one more line. */
  lemma RunTracksLast(cfg: Config, lines: seq<string>)
    requires lines != [] && RunAgrees(cfg, lines[..|lines| - 1])
    ensures RunAgrees(cfg, lines)
  {
    var q := lines[..|lines| - 1];
    var line := lines[|lines| - 1];
    var ps := Pieces(lines);
    var pq := Pieces(q);
    assert ps[..|ps| - 1] == pq;
    var items := Items(pq);
    var piece := Classify(line);
    assert ps[|ps| - 1] == piece;
    var tail := if piece.Item? then [piece.value] else [];
    assert Items(ps) == items + tail;
    AllKnownAppend(cfg, items, tail);
    assert AllKnown(cfg, tail) <==> (piece.Item? ==> Known(cfg, piece.value)) by {
      if piece.Item? {
        assert tail[0] == piece.value;
      }
    }
    assert Group(ps) == Advance(Group(pq), piece);
    if Run(cfg, q).Ok? {
      var st := Run(cfg, q).value;
      assert Run(cfg, lines) == Step(cfg, st, line);
      StepTracks(cfg, st, Group(pq), line);
    } else {
      assert Run(cfg, lines) == Run(cfg, q);
      assert !AllKnown(cfg, Items(ps));
    }
  }

  lemma AllKnownAppend(cfg: Config, a: seq<Token>, b: seq<Token>)
    ensures AllKnown(cfg, a + b) <==> AllKnown(cfg, a) && AllKnown(cfg, b)
  {
    if AllKnown(cfg, a + b) {
      forall i | 0 <= i < |a| ensures Known(cfg, a[i]) {
        assert (a + b)[i] == a[i];
      }
      forall i | 0 <= i < |b| ensures Known(cfg, b[i]) {
        assert (a + b)[|a| + i] == b[i];
      }
    }
    if AllKnown(cfg, a) && AllKnown(cfg, b) {
      forall i | 0 <= i < |a + b| ensures Known(cfg, (a + b)[i]) {
        if i < |a| {
          assert (a + b)[i] == a[i];
        } else {
          assert (a + b)[i] == b[i - |a|];
        }
      }
    }
  }

  /**
   * What one record says about its sentence toks: the text splits on " " back
   * into the sentence's words (one per token line), there is no "cot" field,
   * a type has an entry exactly when it is a key with at least one "B-" tag in
   * the sentence, and that entry lists one span per such tag, as decoded.
   */
  ghost predicate SentenceRecord(cfg: Config, toks: seq<Token>, r: Record) {
    && Decode(cfg, toks).Ok?
    && SplitOn(r.text, " ") == WordsOf(toks)
    && r.cot.None?
    && (forall k :: k in r.labels <==> k in cfg.keys && CountOpens(cfg, toks, k) > 0)
    && (forall k :: k in r.labels ==> k in Decode(cfg, toks).value && r.labels[k] == Decode(cfg, toks).value[k])
    && (forall k :: k in r.labels ==> |r.labels[k]| == CountOpens(cfg, toks, k))
  }

  lemma EmitSentence(cfg: Config, toks: seq<Token>)
    requires toks != [] && WordsAreFields(toks) && Decode(cfg, toks).Ok?
    ensures SentenceRecord(cfg, toks, Emit(WordsOf(toks), Decode(cfg, toks).value))
  {
    var l := Decode(cfg, toks).value;
    DecodeCounts(cfg, toks);
    SpansShaped(cfg, toks);
    StripSpansNoOp(l);
    var ws := WordsOf(toks);
    forall i, j | 0 <= i < |ws| && 0 <= j < |ws[i]| ensures ws[i][j] != ' ' {
      assert IsWord(toks[i].word);
    }
    SplitJoin(ws, ' ');
  }

  /** Every token of the input has whitespace-free fields. */
  lemma BlockWords(lines: seq<string>, bs: seq<seq<Token>>, i: nat)
    requires bs == BlocksOf(Pieces(lines)) && i < |bs|
    ensures WordsAreFields(bs[i])
  {
    BlocksPartitionItems(Pieces(lines));
    forall j | 0 <= j < |bs[i]| ensures IsWord(bs[i][j].word) {
      FlattenMember(bs, i, j);
      ItemsMember(Pieces(lines), bs[i][j]);
      var n :| 0 <= n < |lines| && Pieces(lines)[n] == Item(bs[i][j]);
      assert Classify(lines[n]) == Item(bs[i][j]);
    }
  }

  /**
   * What the converter returns: it raises KeyError (for a type outside the
   * keys) exactly when some "B-" tag names such a type; otherwise it returns
   * one record per sentence, that is, per blank-line separated group of token
   * lines, the last group included even without a trailing blank line (see
   * SentenceRecord).
   */
  lemma ConvertSentences(cfg: Config, lines: seq<string>)
    ensures Convert(cfg, lines).Ok? <==>
              forall i :: 0 <= i < |lines| && Classify(lines[i]).Item? ==> Known(cfg, Classify(lines[i]).value)
    ensures Convert(cfg, lines).Err? ==>
              Convert(cfg, lines).error.KeyError? && Convert(cfg, lines).error.key !in cfg.keys
    ensures Convert(cfg, lines).Ok? ==>
              var bs := BlocksOf(Pieces(lines));
              |Convert(cfg, lines).value| == |bs| &&
              forall i :: 0 <= i < |bs| ==> SentenceRecord(cfg, bs[i], Convert(cfg, lines).value[i])
  {
    RunTracksSentences(cfg, lines);
    var ps := Pieces(lines);
    if AllKnown(cfg, Items(ps)) {
      forall i | 0 <= i < |lines| && Classify(lines[i]).Item? ensures Known(cfg, Classify(lines[i]).value) {
        assert ps[i] == Classify(lines[i]);
        ItemsHasItem(ps, i);
      }
    } else {
      var j :| 0 <= j < |Items(ps)| && !Known(cfg, Items(ps)[j]);
      ItemsMember(ps, Items(ps)[j]);
    }
    if Run(cfg, lines).Ok? {
      var st := Run(cfg, lines).value;
      var g := Group(Pieces(lines));
      var bs := BlocksOf(Pieces(lines));
      var recs := Finish(st);
      assert |recs| == |bs|;
      forall i | 0 <= i < |bs| ensures SentenceRecord(cfg, bs[i], recs[i]) {
        BlockWords(lines, bs, i);
        EmitSentence(cfg, bs[i]);
      }
    }
  }

  /** A "-DOCSTART-" line neither belongs to a sentence nor ends one: dropping it changes nothing. */
  lemma DocStartSkipped(cfg: Config, a: seq<string>, line: string, b: seq<string>)
    requires StartsWith(line, DocStart)
    ensures Convert(cfg, a + [line] + b) == Convert(cfg, a + b)
  {
    assert line[0] == '-';
    assert Classify(line) == Skip;
    RunFromAppend(cfg, Start(cfg), a + [line], b);
    RunFromAppend(cfg, Start(cfg), a, [line]);
    RunFromAppend(cfg, Start(cfg), a, b);
    assert [line][..0] == [];
  }
}
