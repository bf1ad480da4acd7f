/**
 * The free-text result parser: a file of `input: <sentence>` lines, each
 * followed by `result: <clause>; <clause>; ...` lines and closed by a blank
 * line, read into one record per closed example. A clause reads
 * `<description>-><type>: <entity>, <entity>, ...`; clauses whose type is not
 * a valid label, or that cannot be split, are reported and skipped.
 */
module ResultParser {
  import opened Wrappers
  import opened Text
  import opened Records

  const InputPrefix: string := "input:"
  const ResultPrefix: string := "result:"

  /**
   * A report the parser prints: the stripped line and its 1-based line
   * number, with the offending type for an unrecognised one.
   */
  datatype Warning =
    | UnrecognisedType(line: string, count: nat, entityType: string)
    | Unparsed(line: string, count: nat)

  /** What one "; "-separated clause of a result line amounts to. */
  datatype Clause =
    | NoArrow                                        // no "->": ignored
    | NoColon                                        // "->" but no ": ": the unpacking fails
    | Typed(entityType: string, names: seq<string>)  // type and entity names

  /** A line of the file, once read. */
  datatype Line =
    | InputLine(text: string)
    | ResultLine(line: string, clauses: seq<Clause>)
    | BlankLine
    | OtherLine

  /** The parser's loop variables. */
  datatype State = State(text: Option<string>, labels: Labels, count: nat, data: seq<Record>, warnings: seq<Warning>)

  /** The label lists are exactly those of the valid labels, as every reset builds them. */
  ghost predicate Keyed(valid: seq<string>, labels: Labels) {
    forall k :: k in labels <==> k in valid
  }

  /** `[name.strip() for name in names if name.strip()]`. */
  function CleanNames(names: seq<string>): seq<string> {
    CleanFrom(names, 0)
  }

  /** CleanNames of names[i..]. */
  function CleanFrom(names: seq<string>, i: nat): seq<string>
    requires i <= |names|
    decreases |names| - i
  {
    if i == |names| then []
    else (if Strip(names[i]) != [] then [Strip(names[i])] else []) + CleanFrom(names, i + 1)
  }

  /** The entities of a clause: comma-separated, stripped, empty ones dropped. */
  function EntityNames(entityPart: string): seq<string> {
    CleanNames(SplitOn(entityPart, ","))
  }

  /**
   * One stripped clause: ignored without "->"; a failed unpacking without
   * ": "; otherwise the text before the first ": ", stripped, lower-cased and
   * cut after its first "->", then stripped again, is the type, and the text
   * after it holds the entities.
   */
  function ParseClause(part: string): Clause {
    if !Contains(part, "->") then NoArrow
    else match SplitOnce(part, ": ")
      case None => NoColon
      case Some((labelPart, entityPart)) =>
        Typed(Strip(AfterFirst(Lower(Strip(labelPart)), "->")), EntityNames(entityPart))
  }

  /** An entity name as the parser keeps it: non-empty, no whitespace at either end. */
  ghost predicate CleanName(n: string) {
    n != [] && Trimmed(n)
  }

  ghost predicate AllClean(ns: seq<string>) {
    forall i :: 0 <= i < |ns| ==> CleanName(ns[i])
  }

  /** Every entity name is non-empty and has no whitespace at either end, and there are no more names than parts. */
  lemma CleanNamesShape(names: seq<string>)
    ensures |CleanNames(names)| <= |names|
    ensures forall i :: 0 <= i < |CleanNames(names)| ==> CleanNames(names)[i] != [] && Trimmed(CleanNames(names)[i])
  {
    CleanFromShape(names, 0);
  }

  lemma {:induction false} CleanFromShape(names: seq<string>, k: nat)
    requires k <= |names|
    ensures |CleanFrom(names, k)| <= |names| - k
    ensures AllClean(CleanFrom(names, k))
    decreases |names| - k
  {
    if k < |names| {
      CleanFromShape(names, k + 1);
      var rest := CleanFrom(names, k + 1);
      var name := Strip(names[k]);
      if name != [] {
        assert CleanFrom(names, k) == [name] + rest;
        ConsClean(name, rest);
      } else {
        assert CleanFrom(names, k) == rest;
      }
    }
  }

  lemma ConsClean(n: string, rest: seq<string>)
    requires CleanName(n) && AllClean(rest)
    ensures AllClean([n] + rest)
  {
    forall i | 0 <= i < |[n] + rest| ensures CleanName(([n] + rest)[i]) {
      if i > 0 {
        assert ([n] + rest)[i] == rest[i - 1];
      }
    }
  }

  /**
   * A clause is ignored exactly when it has no "->", fails to unpack exactly
   * when it has "->" but no ": ", and otherwise yields a type with no
   * whitespace at either end and no upper-case letter, and entity names that
   * are non-empty and trimmed.
   */
  lemma ClauseKinds(part: string)
    ensures ParseClause(part).NoArrow? <==> !Contains(part, "->")
    ensures ParseClause(part).NoColon? <==> Contains(part, "->") && !Contains(part, ": ")
    ensures ParseClause(part).Typed? ==>
              var t := ParseClause(part).entityType;
              Trimmed(t) && forall ch :: ch in t ==> !IsUpperAscii(ch)
    ensures ParseClause(part).Typed? ==>
              var names := ParseClause(part).names;
              forall i :: 0 <= i < |names| ==> names[i] != [] && Trimmed(names[i])
  {
    if Contains(part, "->") {
      match SplitOnce(part, ": ")
      case None =>
      case Some((labelPart, entityPart)) =>
        var lowered := Lower(Strip(labelPart));
        LowerAfterFirst(lowered, Strip(AfterFirst(lowered, "->")));
        CleanNamesShape(SplitOn(entityPart, ","));
    }
  }

  /** Cutting and stripping a lower-cased string leaves it free of upper-case letters. */
  lemma LowerAfterFirst(lowered: string, t: string)
    requires forall ch :: ch in lowered ==> !IsUpperAscii(ch)
    requires t == Strip(AfterFirst(lowered, "->"))
    ensures forall ch :: ch in t ==> !IsUpperAscii(ch)
  {
    var a := AfterFirst(lowered, "->");
    SplitOnceJoins(lowered, "->");
    match SplitOnce(lowered, "->")
    case None =>
    case Some((b, rest)) =>
      assert lowered == b + "->" + rest;
      assert forall ch :: ch in rest ==> ch in lowered;
    StripKeepsCharacters(a);
  }

  /** One clause's effect: extend the type's list, or report it. */
  function ApplyClause(valid: seq<string>, st: State, line: string, c: Clause): State {
    match c
    case NoArrow => st
    case NoColon => State(st.text, st.labels, st.count, st.data, st.warnings + [Unparsed(line, st.count)])
    case Typed(t, names) =>
      if t in valid then State(st.text, st.labels[t := Spans(st.labels, t) + names], st.count, st.data, st.warnings)
      else State(st.text, st.labels, st.count, st.data, st.warnings + [UnrecognisedType(line, st.count, t)])
  }

  /** The list of a type; every valid type has one (see RunKeyed). */
  function Spans(labels: Labels, t: string): seq<string> {
    if t in labels then labels[t] else []
  }

  /** The pieces of a result line: the text after its first eight characters, stripped, split on "; ". */
  function ResultParts(line: string): seq<string> {
    SplitOn(Strip(Drop(line, 8)), "; ")
  }

  /** The clauses of a result line, in order, each piece stripped first. */
  function Clauses(line: string): seq<Clause> {
    var parts := ResultParts(line);
    seq(|parts|, j requires 0 <= j < |parts| => ParseClause(Strip(parts[j])))
  }

  /** The given clauses of a result line, applied in order. */
  function ApplyClauses(valid: seq<string>, st: State, line: string, cs: seq<Clause>): State {
    if cs == [] then st
    else ApplyClause(valid, ApplyClauses(valid, st, line, cs[..|cs| - 1]), line, cs[|cs| - 1])
  }

  function Start(valid: seq<string>): State {
    State(None, EmptyLabels(valid), 0, [], [])
  }

  /**
   * What one raw line is, once stripped: an input line (its first seven
   * characters dropped, the rest stripped), a result line with its clauses, a
   * blank line, or anything else.
   */
  function ReadLine(raw: string): Line {
    var line := Strip(raw);
    if StartsWith(line, InputPrefix) then InputLine(Strip(Drop(line, 7)))
    else if StartsWith(line, ResultPrefix) then ResultLine(line, Clauses(line))
    else if line == [] then BlankLine
    else OtherLine
  }

  /** Every line of a file, read. */
  function ReadLines(raws: seq<string>): seq<Line> {
    seq(|raws|, i requires 0 <= i < |raws| => ReadLine(raws[i]))
  }

  /** Each line is read on its own: reading a + b reads a, then b. */
  lemma ReadLinesAppend(a: seq<string>, b: seq<string>)
    ensures ReadLines(a + b) == ReadLines(a) + ReadLines(b)
  {
    forall i | 0 <= i < |a| + |b|
      ensures ReadLines(a + b)[i] == (ReadLines(a) + ReadLines(b))[i]
    {
      if i < |a| {
        assert (a + b)[i] == a[i];
      } else {
        assert (a + b)[i] == b[i - |a|];
      }
    }
  }

  /** A line reads as blank exactly when it is empty once stripped. */
  lemma ReadLineBlank(raw: string)
    ensures ReadLine(raw) == BlankLine <==> Strip(raw) == []
  {
  }

  /**
   * One line, counted: an input line starts a new example; a result line
   * applies its clauses; a blank line closes the current example, if any.
   */
  function Step(valid: seq<string>, st: State, l: Line): State {
    var count := st.count + 1;
    match l
    case InputLine(t) => State(Some(t), EmptyLabels(valid), count, st.data, st.warnings)
    case ResultLine(line, cs) => ApplyClauses(valid, State(st.text, st.labels, count, st.data, st.warnings), line, cs)
    case BlankLine =>
      if st.text.Some? then
        State(None, EmptyLabels(valid), count, st.data + [Record(st.text.value, NonEmptyEntries(st.labels), None)], st.warnings)
      else State(st.text, st.labels, count, st.data, st.warnings)
    case OtherLine => State(st.text, st.labels, count, st.data, st.warnings)
  }

  function RunFrom(valid: seq<string>, st: State, ls: seq<Line>): State {
    if ls == [] then st else Step(valid, RunFrom(valid, st, ls[..|ls| - 1]), ls[|ls| - 1])
  }

  /** The state after the given lines; the records and reports are its data and warnings. */
  function Run(valid: seq<string>, raws: seq<string>): State {
    RunFrom(valid, Start(valid), ReadLines(raws))
  }

  /** The state after i + 1 lines is the state after i lines, then one step. */
  lemma RunStep(valid: seq<string>, ls: seq<Line>, i: nat, st: State, st': State)
    requires i < |ls| && RunFrom(valid, Start(valid), ls[..i]) == st && Step(valid, st, ls[i]) == st'
    ensures RunFrom(valid, Start(valid), ls[..i + 1]) == st'
  {
    assert ls[..i + 1][..i] == ls[..i];
  }

  /** A result line is counted, then its clauses are applied. */
  lemma StepResult(valid: seq<string>, st: State, line: string, cs: seq<Clause>, counted: State)
    requires counted == State(st.text, st.labels, st.count + 1, st.data, st.warnings)
    ensures Step(valid, st, ResultLine(line, cs)) == ApplyClauses(valid, counted, line, cs)
  {
  }

  /** The clauses up to j + 1 are those up to j, then clause j. */
  lemma ApplyClausesStep(valid: seq<string>, st: State, line: string, cs: seq<Clause>, j: nat)
    requires j < |cs|
    ensures ApplyClauses(valid, st, line, cs[..j + 1]) == ApplyClause(valid, ApplyClauses(valid, st, line, cs[..j]), line, cs[j])
  {
    assert cs[..j + 1][..j] == cs[..j];
  }

  /**
   * The parser: the records of the closed examples and the reports, in line
   * order. Nothing is emitted at the end of the input: an example without a
   * closing blank line is lost.
   */
  method ConvertToJson(lines: seq<string>, validLabels: seq<string>) returns (data: seq<Record>, warnings: seq<Warning>)
    ensures data == Run(validLabels, lines).data
    ensures warnings == Run(validLabels, lines).warnings
  {
    var st := Start(validLabels);
    ghost var ls := ReadLines(lines);
    var i := 0;
    while i < |lines|
      invariant 0 <= i <= |lines|
      invariant RunFrom(validLabels, Start(validLabels), ls[..i]) == st
      invariant Keyed(validLabels, st.labels)
    {
      ghost var before := st;
      st := ProcessLine(validLabels, st, lines[i]);
      RunStep(validLabels, ls, i, before, st);
      i := i + 1;
    }
    assert ls[..i] == ls;
    data := st.data;
    warnings := st.warnings;
  }

  /**
   * The body of the parser's loop: one raw line, stripped and counted, read
   * into the loop variables.
   */
  method ProcessLine(validLabels: seq<string>, st: State, raw: string) returns (st': State)
    requires Keyed(validLabels, st.labels)
    ensures st' == Step(validLabels, st, ReadLine(raw))
    ensures Keyed(validLabels, st'.labels)
  {
    var line := Strip(raw);
    var count := st.count + 1;
    if StartsWith(line, InputPrefix) {
      st' := State(Some(Strip(Drop(line, 7))), EmptyLabels(validLabels), count, st.data, st.warnings);
      assert ReadLine(raw) == InputLine(Strip(Drop(line, 7)));
    } else if StartsWith(line, ResultPrefix) {
      var clauses := Clauses(line);
      assert ReadLine(raw) == ResultLine(line, clauses);
      var counted := State(st.text, st.labels, count, st.data, st.warnings);
      StepResult(validLabels, st, line, clauses, counted);
      var labels, warnings := ApplyClauseList(validLabels, counted, line, clauses);
      st' := State(st.text, labels, count, st.data, warnings);
    } else if line == [] {
      assert ReadLine(raw) == BlankLine;
      if st.text.Some? {
        st' := State(None, EmptyLabels(validLabels), count, st.data + [Record(st.text.value, NonEmptyEntries(st.labels), None)], st.warnings);
      } else {
        st' := State(st.text, st.labels, count, st.data, st.warnings);
      }
    } else {
      assert ReadLine(raw) == OtherLine;
      st' := State(st.text, st.labels, count, st.data, st.warnings);
    }
  }

  /**
   * The loop over the clauses of one result line: the label lists and the
   * reports after it, as ApplyClauses says.
   */
  method ApplyClauseList(validLabels: seq<string>, st: State, line: string, clauses: seq<Clause>) returns (labels: Labels, warnings: seq<Warning>)
    requires Keyed(validLabels, st.labels)
    ensures ApplyClauses(validLabels, st, line, clauses) == State(st.text, labels, st.count, st.data, warnings)
    ensures Keyed(validLabels, labels)
  {
    labels := st.labels;
    warnings := st.warnings;
    var j := 0;
    while j < |clauses|
      invariant 0 <= j <= |clauses|
      invariant ApplyClauses(validLabels, st, line, clauses[..j]) == State(st.text, labels, st.count, st.data, warnings)
      invariant Keyed(validLabels, labels)
    {
      ApplyClausesStep(validLabels, st, line, clauses, j);
      match clauses[j] {
        case NoArrow =>
        case NoColon =>
          warnings := warnings + [Unparsed(line, st.count)];
        case Typed(entityType, entities) =>
          if entityType in validLabels {
            labels := labels[entityType := labels[entityType] + entities];
          } else {
            warnings := warnings + [UnrecognisedType(line, st.count, entityType)];
          }
      }
      j := j + 1;
    }
    assert clauses[..j] == clauses;
  }

  // ---------------------------------------------------------------------------
  // What the parser guarantees

  /** Every name in every list is clean. */
  ghost predicate CleanLists(labels: Labels) {
    forall k, i :: k in labels && 0 <= i < |labels[k]| ==> CleanName(labels[k][i])
  }

  /** A clause whose names are all clean. */
  ghost predicate CleanClause(c: Clause) {
    c.Typed? ==> forall i :: 0 <= i < |c.names| ==> CleanName(c.names[i])
  }

  /** A line as ReadLine can produce it: every clause of a result line is clean. */
  ghost predicate WellRead(l: Line) {
    l.ResultLine? ==> forall j :: 0 <= j < |l.clauses| ==> CleanClause(l.clauses[j])
  }

  /**
   * An emitted record: no "cot" field, only valid types, only non-empty
   * lists, only clean names.
   */
  ghost predicate GoodRecord(valid: seq<string>, r: Record) {
    && r.cot.None?
    && (forall k :: k in r.labels ==> k in valid && r.labels[k] != [])
    && CleanLists(r.labels)
  }

  /** The invariant of the parser's loop variables. */
  ghost predicate Sound(valid: seq<string>, st: State) {
    && Keyed(valid, st.labels)
    && CleanLists(st.labels)
    && forall j :: 0 <= j < |st.data| ==> GoodRecord(valid, st.data[j])
  }

  /** Every line ReadLine produces is well read: the clause names are clean. */
  lemma ReadLineWellRead(raw: string)
    ensures WellRead(ReadLine(raw))
  {
    var line := Strip(raw);
    if !StartsWith(line, InputPrefix) && StartsWith(line, ResultPrefix) {
      var parts := ResultParts(line);
      var cs := Clauses(line);
      assert ReadLine(raw) == ResultLine(line, cs);
      forall j | 0 <= j < |cs| ensures CleanClause(cs[j]) {
        assert cs[j] == ParseClause(Strip(parts[j]));
        ClauseKinds(Strip(parts[j]));
      }
    }
  }

  /** A read result line keeps the stripped raw line, which starts with "result:". */
  lemma ReadLineResult(raw: string, l: Line)
    requires l == ReadLine(raw) && l.ResultLine?
    ensures l.line == Strip(raw) && StartsWith(Strip(raw), ResultPrefix)
  {
  }

  /**
   * A result line changes only the label lists and the reports: the lists
   * are only extended, valid types keep their lists, and every new report
   * carries the line and its number, and an unrecognised type is one that is
   * not valid.
   */
  lemma {:induction false} ApplyClausesFrame(valid: seq<string>, st: State, line: string, cs: seq<Clause>)
    ensures var r := ApplyClauses(valid, st, line, cs);
            && r.text == st.text && r.count == st.count && r.data == st.data
            && (forall k :: k in st.labels ==> k in r.labels && st.labels[k] <= r.labels[k])
            && (Keyed(valid, st.labels) ==> Keyed(valid, r.labels))
            && |st.warnings| <= |r.warnings| && r.warnings[..|st.warnings|] == st.warnings
            && forall j :: |st.warnings| <= j < |r.warnings| ==>
                 && r.warnings[j].line == line && r.warnings[j].count == st.count
                 && (r.warnings[j].UnrecognisedType? ==> r.warnings[j].entityType !in valid)
  {
    if cs != [] {
      var c := cs[|cs| - 1];
      ApplyClausesFrame(valid, st, line, cs[..|cs| - 1]);
      var mid := ApplyClauses(valid, st, line, cs[..|cs| - 1]);
      var r := ApplyClause(valid, mid, line, c);
      assert r == ApplyClauses(valid, st, line, cs);
      assert r.warnings[..|mid.warnings|] == mid.warnings;
      assert r.warnings[..|st.warnings|] == mid.warnings[..|st.warnings|];
    }
  }

  /** Applying clean clauses to sound lists keeps them sound. */
  lemma {:induction false} ApplyClausesSound(valid: seq<string>, st: State, line: string, cs: seq<Clause>)
    requires Sound(valid, st)
    requires forall j :: 0 <= j < |cs| ==> CleanClause(cs[j])
    ensures Sound(valid, ApplyClauses(valid, st, line, cs))
  {
    if cs != [] {
      var c := cs[|cs| - 1];
      ApplyClausesSound(valid, st, line, cs[..|cs| - 1]);
      var mid := ApplyClauses(valid, st, line, cs[..|cs| - 1]);
      ApplyClausesFrame(valid, st, line, cs[..|cs| - 1]);
      if c.Typed? && c.entityType in valid {
        var t := c.entityType;
        var l := mid.labels[t := Spans(mid.labels, t) + c.names];
        forall k, i | k in l && 0 <= i < |l[k]| ensures CleanName(l[k][i]) {
          if k == t && i >= |Spans(mid.labels, t)| {
            assert l[k][i] == c.names[i - |Spans(mid.labels, t)|];
          }
        }
      }
    }
  }

  /** The empty lists an input line or a closed example starts from are sound. */
  lemma EmptySound(valid: seq<string>)
    ensures Keyed(valid, EmptyLabels(valid)) && CleanLists(EmptyLabels(valid))
  {
  }

  /** A closed example is a good record when its lists are sound. */
  lemma EmitGood(valid: seq<string>, text: string, labels: Labels)
    requires Keyed(valid, labels) && CleanLists(labels)
    ensures GoodRecord(valid, Record(text, NonEmptyEntries(labels), None))
  {
  }

  /** One well-read line keeps the loop variables sound. */
  lemma StepSound(valid: seq<string>, st: State, l: Line)
    requires Sound(valid, st) && WellRead(l)
    ensures Sound(valid, Step(valid, st, l))
  {
    EmptySound(valid);
    match l
    case InputLine(t) =>
    case ResultLine(line, cs) =>
      ApplyClausesSound(valid, State(st.text, st.labels, st.count + 1, st.data, st.warnings), line, cs);
    case BlankLine =>
      if st.text.Some? {
        var rec := Record(st.text.value, NonEmptyEntries(st.labels), None);
        EmitGood(valid, st.text.value, st.labels);
        var d := st.data + [rec];
        assert forall j :: 0 <= j < |d| ==> d[j] == rec || d[j] == st.data[j];
      }
    case OtherLine =>
  }

  /** Running well-read lines from the start keeps the loop variables sound. */
  lemma {:induction false} RunFromSound(valid: seq<string>, ls: seq<Line>)
    requires forall j :: 0 <= j < |ls| ==> WellRead(ls[j])
    ensures Sound(valid, RunFrom(valid, Start(valid), ls))
  {
    if ls == [] {
      EmptySound(valid);
    } else {
      RunFromSound(valid, ls[..|ls| - 1]);
      StepSound(valid, RunFrom(valid, Start(valid), ls[..|ls| - 1]), ls[|ls| - 1]);
    }
  }

  /**
   * Whatever the input: the label lists always have exactly the valid types
   * as keys (so `current_label[entity_type]` never fails), and every record
   * emitted has no "cot" field, only valid types with non-empty lists, and
   * only non-empty entity names with no whitespace at either end.
   */
  lemma RunSound(valid: seq<string>, raws: seq<string>)
    ensures Keyed(valid, Run(valid, raws).labels)
    ensures forall j :: 0 <= j < |Run(valid, raws).data| ==> GoodRecord(valid, Run(valid, raws).data[j])
  {
    var ls := ReadLines(raws);
    forall j | 0 <= j < |ls| ensures WellRead(ls[j]) {
      ReadLineWellRead(raws[j]);
    }
    RunFromSound(valid, ls);
  }

  // Reports

  /** Report w points at line number w.count, a result line whose text is w.line. */
  ghost predicate Located(valid: seq<string>, ls: seq<Line>, w: Warning) {
    && 1 <= w.count <= |ls|
    && ls[w.count - 1].ResultLine? && ls[w.count - 1].line == w.line
    && (w.UnrecognisedType? ==> w.entityType !in valid)
  }

  /** The counter is the number of lines read and every report is located. */
  lemma {:induction false} RunFromLocated(valid: seq<string>, ls: seq<Line>)
    ensures RunFrom(valid, Start(valid), ls).count == |ls|
    ensures forall j :: 0 <= j < |RunFrom(valid, Start(valid), ls).warnings| ==>
              Located(valid, ls, RunFrom(valid, Start(valid), ls).warnings[j])
  {
    if ls != [] {
      var p := ls[..|ls| - 1];
      var l := ls[|ls| - 1];
      RunFromLocated(valid, p);
      var st := RunFrom(valid, Start(valid), p);
      var st' := RunFrom(valid, Start(valid), ls);
      assert st' == Step(valid, st, l);
      forall j | 0 <= j < |st.warnings| ensures Located(valid, ls, st.warnings[j]) {
        assert Located(valid, p, st.warnings[j]);
        assert ls[st.warnings[j].count - 1] == p[st.warnings[j].count - 1];
      }
      if l.ResultLine? {
        var counted := State(st.text, st.labels, st.count + 1, st.data, st.warnings);
        ApplyClausesFrame(valid, counted, l.line, l.clauses);
        forall j | 0 <= j < |st'.warnings| ensures Located(valid, ls, st'.warnings[j]) {
          if j < |st.warnings| {
            assert st'.warnings[j] == st'.warnings[..|st.warnings|][j] == st.warnings[j];
          }
        }
      }
    }
  }

  /**
   * Every report names a line of the input by its 1-based number and by its
   * stripped text, which is a "result:" line; a report of an unrecognised
   * type names a type that is not valid.
   */
  lemma ReportsLocateLines(valid: seq<string>, raws: seq<string>)
    ensures forall w :: w in Run(valid, raws).warnings ==>
              && 1 <= w.count <= |raws|
              && w.line == Strip(raws[w.count - 1]) && StartsWith(w.line, ResultPrefix)
              && (w.UnrecognisedType? ==> w.entityType !in valid)
  {
    var ls := ReadLines(raws);
    RunFromLocated(valid, ls);
    var ws := Run(valid, raws).warnings;
    forall w | w in ws
      ensures 1 <= w.count <= |raws| && w.line == Strip(raws[w.count - 1]) && StartsWith(w.line, ResultPrefix)
    {
      var j :| 0 <= j < |ws| && ws[j] == w;
      LocatedRaw(valid, raws, w);
    }
  }

  /** A report located in the read lines names its raw line. */
  lemma LocatedRaw(valid: seq<string>, raws: seq<string>, w: Warning)
    requires Located(valid, ReadLines(raws), w)
    ensures 1 <= w.count <= |raws| && w.line == Strip(raws[w.count - 1]) && StartsWith(w.line, ResultPrefix)
  {
    var raw := raws[w.count - 1];
    var l := ReadLines(raws)[w.count - 1];
    assert l == ReadLine(raw);
    ReadLineResult(raw, l);
  }

  // Examples

  /** The number of input lines among ls. */
  function InputLines(ls: seq<Line>): nat {
    if ls == [] then 0 else InputLines(ls[..|ls| - 1]) + if ls[|ls| - 1].InputLine? then 1 else 0
  }

  /**
   * Every record, and the example still open, comes from its own input line:
   * there are never more of them than input lines.
   */
  lemma {:induction false} RecordsBound(valid: seq<string>, ls: seq<Line>)
    ensures var st := RunFrom(valid, Start(valid), ls);
            |st.data| + (if st.text.Some? then 1 else 0) <= InputLines(ls)
  {
    if ls != [] {
      var p := ls[..|ls| - 1];
      var l := ls[|ls| - 1];
      RecordsBound(valid, p);
      var st := RunFrom(valid, Start(valid), p);
      if l.ResultLine? {
        ApplyClausesFrame(valid, State(st.text, st.labels, st.count + 1, st.data, st.warnings), l.line, l.clauses);
      }
    }
  }

  /** The empty line is a blank line. */
  lemma ReadBlank()
    ensures ReadLine("") == BlankLine
  {
    assert Strip("") == "";
  }

  /**
   * A blank line closes the open example: its text and its non-empty lists
   * become the next record, and nothing is open afterwards. (Any other line
   * emits nothing: OnlyBlankEmits.)
   */
  lemma BlankCloses(valid: seq<string>, raws: seq<string>)
    ensures var before := Run(valid, raws);
            var after := Run(valid, raws + [""]);
            && after.text.None?
            && after.data == if before.text.Some?
                             then before.data + [Record(before.text.value, NonEmptyEntries(before.labels), None)]
                             else before.data
  {
    ReadBlank();
    ReadLinesAppend(raws, [""]);
    var ls := ReadLines(raws + [""]);
    assert ls[..|raws|] == ReadLines(raws);
    assert ls[|raws|] == BlankLine;
  }

  /**
   * Only a blank line emits a record: an input line, a result line or any
   * other line leaves the records as they were, so an example still open at
   * the end of the input is never emitted.
   */
  lemma OnlyBlankEmits(valid: seq<string>, raws: seq<string>, l: string)
    requires Strip(l) != []
    ensures Run(valid, raws + [l]).data == Run(valid, raws).data
  {
    ReadLineBlank(l);
    ReadLinesAppend(raws, [l]);
    var ls := ReadLines(raws + [l]);
    var x := ReadLine(l);
    assert ls == ReadLines(raws) + [x];
    assert ls[..|ls| - 1] == ReadLines(raws);
    StepKeepsData(valid, Run(valid, raws), x);
  }

  /** A step on a line that is not blank leaves the records as they were. */
  lemma StepKeepsData(valid: seq<string>, st: State, x: Line)
    requires x != BlankLine
    ensures Step(valid, st, x).data == st.data
  {
    if x.ResultLine? {
      ApplyClausesFrame(valid, State(st.text, st.labels, st.count + 1, st.data, st.warnings), x.line, x.clauses);
    }
  }

  /**
   * An input line forgets the open example: whatever text and lists were
   * open, the run from an input line on is the same once the counter, the
   * records and the reports agree.
   */
  lemma {:induction false} InputForgets(valid: seq<string>, st1: State, st2: State, t: string, rest: seq<Line>)
    requires st1.count == st2.count && st1.data == st2.data && st1.warnings == st2.warnings
    ensures RunFrom(valid, st1, [InputLine(t)] + rest) == RunFrom(valid, st2, [InputLine(t)] + rest)
    decreases |rest|
  {
    var ls := [InputLine(t)] + rest;
    if rest == [] {
      assert ls[..0] == [];
    } else {
      InputForgets(valid, st1, st2, t, rest[..|rest| - 1]);
      assert ls[..|ls| - 1] == [InputLine(t)] + rest[..|rest| - 1];
    }
  }

  // Entity lists

  /** Clean names are kept as they are. */
  lemma {:induction false} CleanFromKeeps(names: seq<string>, k: nat)
    requires k <= |names|
    requires forall i :: 0 <= i < |names| ==> CleanName(names[i])
    ensures CleanFrom(names, k) == names[k..]
    decreases |names| - k
  {
    if k < |names| {
      CleanFromKeeps(names, k + 1);
      StripTrimmed(names[k]);
      assert names[k..] == [names[k]] + names[k + 1..];
    }
  }

  /**
   * Reading an entity list undoes writing one: clean names without a comma,
   * joined with ",", are read back as the same names (none for the empty
   * list).
   */
  lemma EntityNamesJoin(names: seq<string>)
    requires forall i :: 0 <= i < |names| ==> CleanName(names[i]) && ',' !in names[i]
    ensures EntityNames(Join(",", names)) == names
  {
    if names == [] {
      assert SplitOn("", ",") == [""];
      assert Strip("") == "";
    } else {
      forall i, j | 0 <= i < |names| && 0 <= j < |names[i]| ensures names[i][j] != ',' {
        assert names[i][j] in names[i];
      }
      SplitJoin(names, ',');
      CleanFromKeeps(names, 0);
    }
  }
}
