/**
 * String operations the converters rely on. Whitespace is what Python's
 * str.isspace() accepts, the set str.strip() and str.split() remove; case
 * conversion covers ASCII letters only.
 */
module Text {
  import opened Wrappers

  /**
   * Python's whitespace: tab, line feed, vertical tab, form feed, carriage
   * return, the four separators 0x1C-0x1F, space, next line, no-break space,
   * and the Unicode space and line/paragraph separators.
   */
  predicate IsSpace(c: char) {
    || ('\t' <= c <= '\r')
    || ('\U{1C}' <= c <= ' ')
    || c == '\U{85}' || c == '\U{A0}' || c == '\U{1680}'
    || ('\U{2000}' <= c <= '\U{200A}')
    || c == '\U{2028}' || c == '\U{2029}' || c == '\U{202F}' || c == '\U{205F}' || c == '\U{3000}'
  }

  /** A whitespace-free, non-empty field, as str.split() yields. */
  predicate IsWord(w: string) {
    |w| > 0 && forall i :: 0 <= i < |w| ==> !IsSpace(w[i])
  }

  /** Neither starts nor ends with whitespace (the empty string qualifies). */
  predicate Trimmed(s: string) {
    s == [] || (!IsSpace(s[0]) && !IsSpace(s[|s| - 1]))
  }

  predicate StartsWith(s: string, prefix: string) {
    |prefix| <= |s| && s[..|prefix|] == prefix
  }

  /** The first position at or after i that is not whitespace (or |s|). */
  function SkipSpaces(s: string, i: nat): (k: nat)
    requires i <= |s|
    ensures i <= k <= |s|
    ensures k < |s| ==> !IsSpace(s[k])
    ensures forall j :: i <= j < k ==> IsSpace(s[j])
    decreases |s| - i
  {
    if i < |s| && IsSpace(s[i]) then SkipSpaces(s, i + 1) else i
  }

  /** The last position at or before j that follows a non-whitespace character (or 0). */
  function SkipSpacesBack(s: string, j: nat): (k: nat)
    requires j <= |s|
    ensures k <= j
    ensures k > 0 ==> !IsSpace(s[k - 1])
    ensures forall i :: k <= i < j ==> IsSpace(s[i])
  {
    if j > 0 && IsSpace(s[j - 1]) then SkipSpacesBack(s, j - 1) else j
  }

  /** Python's str.strip(): drop leading and trailing whitespace. */
  function Strip(s: string): (r: string)
    ensures Trimmed(r)
    ensures |r| <= |s|
  {
    var a := SkipSpaces(s, 0);
    var b := SkipSpacesBack(s, |s|);
    if b <= a then [] else s[a..b]
  }

  /** Strip yields the empty string exactly for an all-whitespace input. */
  lemma StripEmpty(s: string)
    ensures Strip(s) == [] <==> forall i :: 0 <= i < |s| ==> IsSpace(s[i])
  {
    var a := SkipSpaces(s, 0);
    var b := SkipSpacesBack(s, |s|);
    if a < |s| {
      assert !IsSpace(s[a]);
    }
  }

  /** Strip only removes characters: whatever it keeps was in its input. */
  lemma StripKeepsCharacters(s: string)
    ensures forall c :: c in Strip(s) ==> c in s
  {
    var a := SkipSpaces(s, 0);
    var b := SkipSpacesBack(s, |s|);
    if a < b {
      forall c | c in s[a..b] ensures c in s {
        var i :| 0 <= i < b - a && s[a..b][i] == c;
        assert s[a + i] == c;
      }
    }
  }

  /** A string that has no whitespace at either end is left alone by Strip. */
  lemma StripTrimmed(s: string)
    requires Trimmed(s)
    ensures Strip(s) == s
  {
  }

  /** Only whitespace. */
  predicate AllSpace(s: string) {
    forall i :: 0 <= i < |s| ==> IsSpace(s[i])
  }

  /**
   * Strip removes exactly the whitespace at both ends: a string made of
   * whitespace, a part without whitespace at either end, and whitespace
   * strips to that part.
   */
  lemma StripAround(p: string, m: string, q: string)
    requires AllSpace(p) && Trimmed(m) && AllSpace(q)
    ensures Strip(p + m + q) == m
  {
    var s := p + m + q;
    if m == [] {
      assert AllSpace(s) by {
        assert s == p + q;
      }
      StripEmpty(s);
    } else {
      var a := SkipSpaces(s, 0);
      var b := SkipSpacesBack(s, |s|);
      assert s[|p|] == m[0];
      assert s[|p| + |m| - 1] == m[|m| - 1];
      assert forall i :: 0 <= i < |p| ==> s[i] == p[i];
      assert forall i :: |p| + |m| <= i < |s| ==> s[i] == q[i - |p| - |m|];
      assert s[a..b] == m;
    }
  }

  /**
   * Strip keeps a contiguous piece of its input and cuts only whitespace
   * before and after it.
   */
  lemma StripInfix(s: string)
    ensures exists a, b :: 0 <= a <= b <= |s| && Strip(s) == s[a..b]
              && (forall i :: 0 <= i < a ==> IsSpace(s[i]))
              && (forall i :: b <= i < |s| ==> IsSpace(s[i]))
  {
    var a := SkipSpaces(s, 0);
    var b := SkipSpacesBack(s, |s|);
    if b <= a {
      assert Strip(s) == s[a..a];
    } else {
      assert Strip(s) == s[a..b];
    }
  }

  /** Length of the run of non-whitespace characters at the start of s. */
  function WordLength(s: string): (n: nat)
    ensures n <= |s|
    ensures forall i :: 0 <= i < n ==> !IsSpace(s[i])
    ensures n < |s| ==> IsSpace(s[n])
  {
    if s == [] || IsSpace(s[0]) then 0 else 1 + WordLength(s[1..])
  }

  /** Python's str.split() with no argument: the maximal whitespace-free runs. */
  function Words(s: string): (r: seq<string>)
    ensures forall i :: 0 <= i < |r| ==> IsWord(r[i])
    ensures (exists i :: 0 <= i < |s| && !IsSpace(s[i])) ==> |r| > 0
    decreases |s|
  {
    if s == [] then []
    else if IsSpace(s[0]) then
      var r := Words(s[1..]);
      assert forall i :: 1 <= i < |s| ==> s[i] == s[1..][i - 1];
      r
    else
      var n := WordLength(s);
      [s[..n]] + Words(s[n..])
  }

  /** WordLength is the position of the first whitespace, or the length. */
  lemma WordLengthIs(s: string, n: nat)
    requires n <= |s| && (forall i :: 0 <= i < n ==> !IsSpace(s[i]))
    requires n < |s| ==> IsSpace(s[n])
    ensures WordLength(s) == n
  {
  }

  /** Leading whitespace yields no field. */
  lemma {:induction false} WordsLeadingSpace(p: string, t: string)
    requires AllSpace(p)
    ensures Words(p + t) == Words(t)
    decreases |p|
  {
    if p != [] {
      assert (p + t)[1..] == p[1..] + t;
      WordsLeadingSpace(p[1..], t);
    } else {
      assert p + t == t;
    }
  }

  /** Trailing whitespace yields no field. */
  lemma {:induction false} WordsTrailingSpace(t: string, q: string)
    requires AllSpace(q)
    ensures Words(t + q) == Words(t)
    decreases |t|
  {
    var s := t + q;
    if t == [] {
      assert s == q + [];
      WordsLeadingSpace(q, []);
    } else if IsSpace(t[0]) {
      assert s[1..] == t[1..] + q;
      WordsTrailingSpace(t[1..], q);
    } else {
      var m := WordLength(t);
      assert m > 0;
      assert forall i :: 0 <= i < m ==> s[i] == t[i];
      if m < |t| {
        assert s[m] == t[m];
      } else if m < |s| {
        assert s[m] == q[0];
      }
      WordLengthIs(s, m);
      assert s[..m] == t[..m];
      assert s[m..] == t[m..] + q;
      WordsTrailingSpace(t[m..], q);
    }
  }

  /**
   * A field followed by whitespace (any non-empty run) is the first field,
   * and the fields of the rest follow it.
   */
  lemma WordsCons(w: string, sp: string, t: string)
    requires IsWord(w) && sp != [] && AllSpace(sp)
    ensures Words(w + sp + t) == [w] + Words(t)
  {
    var s := w + sp + t;
    assert forall i :: 0 <= i < |w| ==> s[i] == w[i];
    assert s[|w|] == sp[0];
    WordLengthIs(s, |w|);
    assert s[..|w|] == w;
    assert s[|w|..] == sp + t;
    WordsLeadingSpace(sp, t);
  }

  /** A single field is its own only field. */
  lemma WordsSingle(w: string)
    requires IsWord(w)
    ensures Words(w) == [w]
  {
    WordLengthIs(w, |w|);
    assert w[..|w|] == w;
    assert w[|w|..] == [];
  }

  /** Python's sep.join(parts). */
  function Join(sep: string, parts: seq<string>): string
  {
    if parts == [] then ""
    else if |parts| == 1 then parts[0]
    else parts[0] + sep + Join(sep, parts[1..])
  }

  /** Splitting fields joined by single spaces gives them back. */
  lemma {:induction false} WordsJoin(ws: seq<string>)
    requires forall i :: 0 <= i < |ws| ==> IsWord(ws[i])
    ensures Words(Join(" ", ws)) == ws
  {
    if |ws| == 1 {
      WordsSingle(ws[0]);
    } else if |ws| > 1 {
      WordsCons(ws[0], " ", Join(" ", ws[1..]));
      WordsJoin(ws[1..]);
    }
  }

  /** Whitespace around a string adds no field. */
  lemma WordsPadded(p: string, t: string, q: string)
    requires AllSpace(p) && AllSpace(q)
    ensures Words(p + t + q) == Words(t)
  {
    var u := t + q;
    WordsTrailingSpace(t, q);
    assert p + t + q == p + u;
    WordsLeadingSpace(p, u);
  }

  /** Whitespace around fields joined by single spaces changes nothing: they are the fields. */
  lemma WordsAround(p: string, ws: seq<string>, q: string)
    requires AllSpace(p) && AllSpace(q)
    requires forall i :: 0 <= i < |ws| ==> IsWord(ws[i])
    ensures Words(p + Join(" ", ws) + q) == ws
  {
    WordsPadded(p, Join(" ", ws), q);
    WordsJoin(ws);
  }

  /** Stripping first does not change the fields. */
  lemma WordsStrip(s: string)
    ensures Words(Strip(s)) == Words(s)
  {
    var a := SkipSpaces(s, 0);
    var b := SkipSpacesBack(s, |s|);
    if b <= a {
      StripEmpty(s);
      assert s == s + [];
      WordsLeadingSpace(s, []);
    } else {
      assert s == s[..a] + (s[a..b] + s[b..]);
      assert AllSpace(s[..a]);
      assert AllSpace(s[b..]);
      WordsLeadingSpace(s[..a], s[a..b] + s[b..]);
      WordsTrailingSpace(s[a..b], s[b..]);
    }
  }

  /** pat occurs in s starting at position j. */
  predicate OccursAt(s: string, pat: string, j: int) {
    0 <= j && j + |pat| <= |s| && s[j..j + |pat|] == pat
  }

  /** The first position at or after k where pat occurs in s, if any (see IndexFromFirst). */
  function IndexFrom(s: string, pat: string, k: nat): (r: Option<nat>)
    requires |pat| > 0
    ensures r.Some? ==> k <= r.value && r.value + |pat| <= |s|
    decreases |s| - k
  {
    if |s| < k + |pat| then None
    else if OccursAt(s, pat, k) then Some(k)
    else IndexFrom(s, pat, k + 1)
  }

  /**
   * IndexFrom finds an occurrence with none before it from k on, and finds
   * nothing only when there is no occurrence from k on.
   */
  lemma {:induction false} IndexFromFirst(s: string, pat: string, k: nat)
    requires |pat| > 0
    ensures IndexFrom(s, pat, k).Some? ==> OccursAt(s, pat, IndexFrom(s, pat, k).value)
    ensures IndexFrom(s, pat, k).Some? ==> forall j :: k <= j < IndexFrom(s, pat, k).value ==> !OccursAt(s, pat, j)
    ensures IndexFrom(s, pat, k).None? ==> forall j :: k <= j ==> !OccursAt(s, pat, j)
    decreases |s| - k
  {
    if |s| >= k + |pat| && !OccursAt(s, pat, k) {
      IndexFromFirst(s, pat, k + 1);
    }
  }

  /** Python's s.find(pat), with None for -1. */
  function IndexOf(s: string, pat: string): (r: Option<nat>)
    requires |pat| > 0
    ensures r.Some? ==> r.value + |pat| <= |s|
  {
    IndexFrom(s, pat, 0)
  }

  /** Python's `pat in s`. */
  predicate Contains(s: string, pat: string)
    requires |pat| > 0
  {
    IndexOf(s, pat).Some?
  }

  /** `pat in s` holds exactly when pat occurs somewhere in s. */
  lemma ContainsOccurs(s: string, pat: string)
    requires |pat| > 0
    ensures Contains(s, pat) <==> exists j :: OccursAt(s, pat, j)
  {
    IndexFromFirst(s, pat, 0);
  }

  /** Python's s.split(sep, 1) when it yields two pieces; None when sep does not occur. */
  function SplitOnce(s: string, sep: string): (r: Option<(string, string)>)
    requires |sep| > 0
  {
    match IndexOf(s, sep)
    case None => None
    case Some(i) => Some((s[..i], s[i + |sep|..]))
  }

  /**
   * Splitting once happens exactly when sep occurs, and the two pieces put
   * back around sep give s again.
   */
  lemma SplitOnceJoins(s: string, sep: string)
    requires |sep| > 0
    ensures SplitOnce(s, sep).Some? <==> Contains(s, sep)
    ensures SplitOnce(s, sep).Some? ==> s == SplitOnce(s, sep).value.0 + sep + SplitOnce(s, sep).value.1
  {
    IndexFromFirst(s, sep, 0);
    if IndexOf(s, sep).Some? {
      var i := IndexOf(s, sep).value;
      assert s == s[..i] + s[i..i + |sep|] + s[i + |sep|..];
    }
  }

  /** Python's s.split(sep, 1)[-1]: what follows the first sep, or all of s. */
  function AfterFirst(s: string, sep: string): string
    requires |sep| > 0
  {
    match SplitOnce(s, sep)
    case None => s
    case Some((_, rest)) => rest
  }

  /** The pieces of s[k..] between the occurrences of sep, as Python's split yields them. */
  function SplitFrom(s: string, sep: string, k: nat): (r: seq<string>)
    requires |sep| > 0 && k <= |s|
    ensures |r| > 0
    decreases |s| - k
  {
    match IndexFrom(s, sep, k)
    case None => [s[k..]]
    case Some(i) => [s[k..i]] + SplitFrom(s, sep, i + |sep|)
  }

  /** Python's s.split(sep) for a non-empty separator. */
  function SplitOn(s: string, sep: string): (r: seq<string>)
    requires |sep| > 0
    ensures |r| > 0
  {
    SplitFrom(s, sep, 0)
  }

  /**
   * Splitting on a one-character separator undoes joining with it, as long as
   * no part contains the separator: the inverse pair behind "the number of
   * space-separated words of a record's text".
   */
  lemma SplitJoin(parts: seq<string>, sep: char)
    requires |parts| > 0
    requires forall i, j :: 0 <= i < |parts| && 0 <= j < |parts[i]| ==> parts[i][j] != sep
    ensures SplitOn(Join([sep], parts), [sep]) == parts
  {
    var s := Join([sep], parts);
    assert s[0..] == s;
    SplitFromJoin(s, 0, parts, sep);
  }

  /** SplitJoin from position k on, by induction on the parts. */
  lemma {:induction false} SplitFromJoin(s: string, k: nat, parts: seq<string>, sep: char)
    requires k <= |s| && |parts| > 0
    requires forall i, j :: 0 <= i < |parts| && 0 <= j < |parts[i]| ==> parts[i][j] != sep
    requires s[k..] == Join([sep], parts)
    ensures SplitFrom(s, [sep], k) == parts
    decreases |parts|
  {
    var p := parts[0];
    if |parts| == 1 {
      assert s[k..] == p;
      NoSeparatorIn(s, k, |s|, p, sep);
      IndexFromFirst(s, [sep], k);
      assert IndexFrom(s, [sep], k).None?;
    } else {
      var rest := Join([sep], parts[1..]);
      var m := k + |p|;
      assert s[k..] == p + [sep] + rest;
      assert s[k..m] == p;
      NoSeparatorIn(s, k, m, p, sep);
      assert s[m..m + 1] == [sep];
      IndexFromAt(s, [sep], k, m);
      assert s[m + 1..] == rest;
      SplitFromJoin(s, m + 1, parts[1..], sep);
    }
  }

  /** The first occurrence from k on is at m when pat occurs at m and nowhere in between. */
  lemma IndexFromAt(s: string, pat: string, k: nat, m: nat)
    requires |pat| > 0 && k <= m && OccursAt(s, pat, m)
    requires forall j :: k <= j < m ==> !OccursAt(s, pat, j)
    ensures IndexFrom(s, pat, k) == Some(m)
  {
    IndexFromFirst(s, pat, k);
  }

  /** A piece s[k..m] free of sep has no occurrence of [sep] starting inside it. */
  lemma NoSeparatorIn(s: string, k: nat, m: nat, p: string, sep: char)
    requires k <= m <= |s| && s[k..m] == p
    requires forall j :: 0 <= j < |p| ==> p[j] != sep
    ensures forall j :: k <= j < m ==> !OccursAt(s, [sep], j)
  {
    forall j | k <= j < m ensures !OccursAt(s, [sep], j) {
      assert s[j..j + 1][0] == s[j] == p[j - k];
    }
  }

  function LowerChar(c: char): char {
    if 'A' <= c <= 'Z' then (c as int + 32) as char else c
  }

  function UpperChar(c: char): char {
    if 'a' <= c <= 'z' then (c as int - 32) as char else c
  }

  predicate IsUpperAscii(c: char) {
    'A' <= c <= 'Z'
  }

  predicate IsLowerAscii(c: char) {
    'a' <= c <= 'z'
  }

  /**
   * Python's str.lower() on ASCII letters: every other character is kept,
   * and no upper-case letter is left.
   */
  function Lower(s: string): (r: string)
    ensures |r| == |s|
    ensures forall i :: 0 <= i < |s| && !IsUpperAscii(s[i]) ==> r[i] == s[i]
    ensures forall c :: c in r ==> !IsUpperAscii(c)
  {
    seq(|s|, i requires 0 <= i < |s| => LowerChar(s[i]))
  }

  /**
   * Python's str.upper() on ASCII letters: every other character is kept,
   * and no lower-case letter is left.
   */
  function Upper(s: string): (r: string)
    ensures |r| == |s|
    ensures forall i :: 0 <= i < |s| && !IsLowerAscii(s[i]) ==> r[i] == s[i]
    ensures forall c :: c in r ==> !IsLowerAscii(c)
  {
    seq(|s|, i requires 0 <= i < |s| => UpperChar(s[i]))
  }

  /** A string without upper-case letters is its own lower-case form. */
  lemma LowerKeeps(s: string)
    requires forall i :: 0 <= i < |s| ==> !IsUpperAscii(s[i])
    ensures Lower(s) == s
  {
  }

  /** A string without lower-case letters is its own upper-case form. */
  lemma UpperKeeps(s: string)
    requires forall i :: 0 <= i < |s| ==> !IsLowerAscii(s[i])
    ensures Upper(s) == s
  {
  }

  lemma LowerIdempotent(s: string)
    ensures Lower(Lower(s)) == Lower(s)
  {
    LowerKeeps(Lower(s));
  }

  lemma UpperIdempotent(s: string)
    ensures Upper(Upper(s)) == Upper(s)
  {
    UpperKeeps(Upper(s));
  }

  /**
   * Lower- and upper-casing map each letter to the same letter of the other
   * case: a string and its lower-case form have the same upper-case form,
   * and the other way round.
   */
  lemma CaseRoundTrip(s: string)
    ensures Upper(Lower(s)) == Upper(s)
    ensures Lower(Upper(s)) == Lower(s)
  {
    forall i | 0 <= i < |s|
      ensures Upper(Lower(s))[i] == Upper(s)[i] && Lower(Upper(s))[i] == Lower(s)[i]
    {
      assert Lower(s)[i] == LowerChar(s[i]) && Upper(s)[i] == UpperChar(s[i]);
    }
  }

  /** Python's s[n:]: what follows the first n characters, empty when there are no more. */
  function Drop(s: string, n: nat): (r: string)
    ensures n <= |s| ==> s[..n] + r == s
    ensures r == [] <==> |s| <= n
  {
    if |s| <= n then [] else s[n..]
  }
}
