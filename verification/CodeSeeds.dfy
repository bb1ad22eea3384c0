/** What the seeds of a report are: which identifiers and words of which field, and how specific each is. */
module CodeSeeds {
  import opened RankedLists
  import opened CodeMatch
  import I = Identifiers

  // ------------------------------------------------------------------ identifiers of a text

  predicate Letter(c: char) { 'a' <= c <= 'z' || 'A' <= c <= 'Z' }

  predicate Digit(c: char) { '0' <= c <= '9' }

  /** Letters, digits and underscores. */
  predicate Part(c: char) { Letter(c) || Digit(c) || c == '_' }

  lemma SplitCons(a: seq<string>, b: seq<string>, c: char)
    requires a != []
    ensures [[c] + (a + b)[0]] + (a + b)[1..] == [[c] + a[0]] + a[1..] + b
    ensures [""] + (a + b) == [""] + a + b
  {}

  lemma {:induction false} SplitAt(a: string, c: char, b: string, separator: char -> bool)
    requires separator(c)
    ensures I.SplitOn(a + [c] + b, separator) == I.SplitOn(a, separator) + I.SplitOn(b, separator)
  {
    var all := a + [c] + b;
    if a == "" {
      assert all[1..] == b;
    } else {
      assert all[1..] == a[1..] + [c] + b;
      SplitAt(a[1..], c, b, separator);
      SplitCons(I.SplitOn(a[1..], separator), I.SplitOn(b, separator), a[0]);
    }
  }

  lemma {:induction false} RunsJoin(a: seq<string>, b: seq<string>)
    ensures I.Runs(a + b) == I.Runs(a) + I.Runs(b)
  {
    if a == [] {
      assert a + b == b;
    } else {
      assert (a + b)[1..] == a[1..] + b;
      RunsJoin(a[1..], b);
    }
  }

  lemma {:induction false} UnsplitIsOne(s: string, separator: char -> bool)
    requires forall c | c in s :: !separator(c)
    ensures I.SplitOn(s, separator) == [s]
  {
    if s != "" {
      assert s[0] in s && forall c | c in s[1..] :: c in s;
      UnsplitIsOne(s[1..], separator);
      assert [s[0]] + s[1..] == s;
    }
  }

  /** Texts fall apart into identifiers at every other character. */
  lemma IdentifiersSplit(a: string, c: char, b: string)
    requires !Part(c)
    ensures I.IdentifierRuns(a + [c] + b) == I.IdentifierRuns(a) + I.IdentifierRuns(b)
  {
    SplitAt(a, c, b, x => !I.IsIdentifierChar(x));
    RunsJoin(I.SplitOn(a, x => !I.IsIdentifierChar(x)), I.SplitOn(b, x => !I.IsIdentifierChar(x)));
  }

  /** An identifier counts when it has 3 to 80 characters, not all of them digits. */
  lemma IdentifierCounts(run: string)
    requires forall c | c in run :: Part(c)
    ensures I.IdentifierRuns(run) == if 3 <= |run| <= 80 && exists c :: c in run && !Digit(c) then [run] else []
  {
    var separator := (x: char) => !I.IsIdentifierChar(x);
    UnsplitIsOne(run, separator);
    assert [run][1..] == [];
    assert I.Runs([run]) == (if I.IsRun(run) then [run] else []) + I.Runs([]);
    if c :| c in run && !Digit(c) {
      var i :| 0 <= i < |run| && run[i] == c;
      assert !I.IsDigit(run[i]);
    }
    if i :| 0 <= i < |run| && !I.IsDigit(run[i]) {
      assert run[i] in run && !Digit(run[i]);
    }
  }

  // ------------------------------------------------------------------ words of an identifier

  lemma {:induction false} NonEmptyJoin(a: seq<string>, b: seq<string>)
    ensures I.NonEmpty(a + b) == I.NonEmpty(a) + I.NonEmpty(b)
  {
    if a == [] {
      assert a + b == b;
    } else {
      assert (a + b)[1..] == a[1..] + b;
      NonEmptyJoin(a[1..], b);
    }
  }

  lemma WordsOfCons(first: string, rest: seq<string>)
    requires first != "" && I.AllNonEmpty(rest)
    ensures I.AllNonEmpty([first] + rest) && I.WordsOf([first] + rest) == I.WordsFrom(first, 0, 1) + I.WordsOf(rest)
  {
    assert ([first] + rest)[1..] == rest;
  }

  lemma {:induction false} WordsOfJoin(a: seq<string>, b: seq<string>)
    requires I.AllNonEmpty(a) && I.AllNonEmpty(b) && I.AllNonEmpty(a + b)
    ensures I.WordsOf(a + b) == I.WordsOf(a) + I.WordsOf(b)
  {
    if a == [] {
      assert a + b == b;
    } else {
      var first, rest := a[0], a[1..];
      assert I.AllNonEmpty(rest);
      assert I.AllNonEmpty(rest + b);
      assert a + b == [first] + (rest + b) && a == [first] + rest;
      WordsOfJoin(rest, b);
      WordsOfCons(first, rest + b);
      WordsOfCons(first, rest);
      Regroup(I.WordsFrom(first, 0, 1), I.WordsOf(rest), I.WordsOf(b));
    }
  }

  /** An underscore parts two words. */
  lemma UnderscoresPart(a: string, b: string)
    ensures I.IdentifierParts(a + "_" + b) == I.IdentifierParts(a) + I.IdentifierParts(b)
  {
    SplitAt(a, '_', b, I.IsUnderscore);
    NonEmptyJoin(I.SplitOn(a, I.IsUnderscore), I.SplitOn(b, I.IsUnderscore));
    WordsOfJoin(I.Segments(a), I.Segments(b));
  }

  /** A capital behind a small letter, or in front of one, starts a word. */
  predicate Starts(s: string, i: nat)
    requires i < |s|
  {
    && 0 < i && 'A' <= s[i] <= 'Z'
    && ('a' <= s[i - 1] <= 'z' || (i + 1 < |s| && 'a' <= s[i + 1] <= 'z'))
  }

  lemma SameStretch(s: string, from: nat, start: nat, index: nat)
    requires from <= start < index <= |s|
    ensures s[from..][start - from..] == s[start..] && s[from..][start - from..index - from] == s[start..index]
    ensures index < |s| ==> I.WordStarts(s[from..], index - from) == I.WordStarts(s, index)
  {}

  lemma CutHere(s: string, start: nat, index: nat)
    requires start < index < |s|
    ensures I.WordsFrom(s, start, index)
            == if I.WordStarts(s, index) then [I.Lowercase(s[start..index])] + I.WordsFrom(s, index, index + 1)
               else I.WordsFrom(s, start, index + 1)
  {}

  lemma {:induction false} WordsShift(s: string, rest: string, from: nat, start: nat, index: nat)
    requires from <= start < index <= |s| && rest == s[from..]
    ensures I.WordsFrom(s, start, index) == I.WordsFrom(rest, start - from, index - from)
    decreases |s| - index
  {
    SameStretch(s, from, start, index);
    if index < |s| {
      CutHere(s, start, index);
      CutHere(rest, start - from, index - from);
      if I.WordStarts(s, index) {
        WordsShift(s, rest, from, index, index + 1);
      } else {
        WordsShift(s, rest, from, start, index + 1);
      }
    } else {
      assert I.WordsFrom(s, start, index) == [I.Lowercase(s[start..])];
      assert I.WordsFrom(rest, start - from, index - from) == [I.Lowercase(rest[start - from..])];
    }
  }

  /** Up to the next start nothing is cut. */
  lemma {:induction false} NotCutBefore(s: string, index: nat, at: nat)
    requires 0 < index <= at <= |s| && forall i: nat | index <= i < at :: !Starts(s, i)
    ensures I.WordsFrom(s, 0, index) == I.WordsFrom(s, 0, at)
    decreases at - index
  {
    if index < at {
      assert !Starts(s, index);
      NotCutBefore(s, index + 1, at);
    }
  }

  lemma OneSegment(s: string)
    requires s != "" && '_' !in s
    ensures I.IdentifierParts(s) == I.WordsFrom(s, 0, 1)
  {
    I.WordIsOneSegment(s);
    assert [s][1..] == [] && I.NonEmpty([s]) == [s];
    assert I.WordsOf([s]) == I.WordsFrom(s, 0, 1) + I.WordsOf([]);
  }

  /** Without underscores an identifier is cut exactly where words start, each piece in lower case. */
  lemma IdentifiersAreCut(s: string, at: nat)
    requires s != "" && '_' !in s && 0 < at <= |s| && forall i: nat | 0 < i < at :: !Starts(s, i)
    ensures at == |s| ==> I.IdentifierParts(s) == [I.Lowercase(s)]
    ensures at < |s| && Starts(s, at) ==> I.IdentifierParts(s) == [I.Lowercase(s[..at])] + I.IdentifierParts(s[at..])
  {
    OneSegment(s);
    NotCutBefore(s, 1, at);
    assert s[0..] == s && s[0..at] == s[..at];
    if at < |s| && Starts(s, at) {
      OneSegment(s[at..]);
      WordsShift(s, s[at..], at, at, at + 1);
    }
  }

  lemma LowercaseIs(s: string, i: nat)
    requires i < |s|
    ensures I.Lowercase(s)[i] as int == if 'A' <= s[i] <= 'Z' then s[i] as int + 32 else s[i] as int
  {}

  // ------------------------------------------------------------------ seeds

  /** A word of 3 to 64 characters with a letter in it, and not a stop word. */
  ghost predicate Useful(word: string, stop: set<string>) {
    3 <= |word| <= 64 && (exists c :: c in word && Letter(c)) && word !in stop
  }

  ghost function UsefulOnly(stop: set<string>): string -> bool {
    (word: string) => Useful(word, stop)
  }

  function Bonus(source: Source): nat {
    match source
    case Operation => 60
    case RuntimeHint => 50
    case FindingTopic => 40
    case FindingKind => 20
    case Surface => 10
  }

  function WordSeed(source: Source): string -> Draft {
    (word: string) => Draft(word, WordOf(source), 100 + Bonus(source) + |word|)
  }

  lemma UsefulIs(word: string, stop: set<string>)
    ensures IsUseful(word, stop) <==> Useful(word, stop)
  {
    if c :| c in word && Letter(c) {
      var i :| 0 <= i < |word| && word[i] == c;
      assert I.IsUpper(word[i]) || I.IsLower(word[i]);
    }
    if i :| 0 <= i < |word| && (I.IsUpper(word[i]) || I.IsLower(word[i])) {
      assert word[i] in word && Letter(word[i]);
    }
  }

  lemma {:induction false} WordDraftsAre(words: seq<string>, source: Source, stop: set<string>)
    ensures UsefulCount(words, stop) == |Where(words, UsefulOnly(stop))|
    ensures WordDrafts(words, source, stop) == Map(Where(words, UsefulOnly(stop)), WordSeed(source))
  {
    if words != [] {
      UsefulIs(words[0], stop);
      WordDraftsAre(words[1..], source, stop);
      var rest := Where(words[1..], UsefulOnly(stop));
      assert ([words[0]] + rest)[1..] == rest;
      assert Where(words, UsefulOnly(stop)) == if Useful(words[0], stop) then [words[0]] + rest else rest;
      assert Weight(source) == Bonus(source);
    }
  }

  /** The seeds of one identifier: itself, when it has two words and a useful one, and its useful words. */
  ghost function SeedsOf(run: string, source: Source, stop: set<string>): seq<Draft> {
    var words := I.IdentifierParts(run);
    ExactSeed(run, words, source, stop) + Map(Where(words, UsefulOnly(stop)), WordSeed(source))
  }

  ghost function ExactSeed(run: string, words: seq<string>, source: Source, stop: set<string>): seq<Draft> {
    var useful := |Where(words, UsefulOnly(stop))|;
    if |words| >= 2 && useful >= 1
    then [Draft(run, ExactIdentifier(source), 200 + Bonus(source) + 10 * useful + |run|)] else []
  }

  lemma {:induction false} RunsDraftsJoin(a: seq<string>, b: seq<string>, source: Source, stop: set<string>)
    ensures RunsDrafts(a + b, source, stop) == RunsDrafts(a, source, stop) + RunsDrafts(b, source, stop)
  {
    if a == [] {
      assert a + b == b;
    } else {
      assert (a + b)[1..] == a[1..] + b;
      RunsDraftsJoin(a[1..], b, source, stop);
      Regroup(RunDrafts(a[0], source, stop), RunsDrafts(a[1..], source, stop), RunsDrafts(b, source, stop));
    }
  }

  lemma ExactDraftsAre(run: string, words: seq<string>, source: Source, stop: set<string>)
    requires UsefulCount(words, stop) == |Where(words, UsefulOnly(stop))|
    ensures ExactDrafts(run, words, source, stop) == ExactSeed(run, words, source, stop)
  {}

  lemma WordsDraftsAre(run: string, words: seq<string>, source: Source, stop: set<string>)
    ensures WordsDrafts(run, words, source, stop)
            == ExactSeed(run, words, source, stop) + Map(Where(words, UsefulOnly(stop)), WordSeed(source))
  {
    WordDraftsAre(words, source, stop);
    ExactDraftsAre(run, words, source, stop);
  }

  lemma RunDraftsAre(run: string, source: Source, stop: set<string>)
    ensures RunDrafts(run, source, stop) == SeedsOf(run, source, stop)
  {
    WordsDraftsAre(run, I.IdentifierParts(run), source, stop);
  }

  /** A field's seeds: identifier by identifier. */
  lemma FieldSeeds(a: string, c: char, b: string, source: Source, stop: set<string>)
    requires !Part(c)
    ensures FieldDrafts(a + [c] + b, source, stop) == FieldDrafts(a, source, stop) + FieldDrafts(b, source, stop)
    ensures (forall x | x in a :: Part(x)) ==>
              FieldDrafts(a, source, stop)
              == if 3 <= |a| <= 80 && exists x :: x in a && !Digit(x) then SeedsOf(a, source, stop) else []
  {
    IdentifiersSplit(a, c, b);
    RunsDraftsJoin(I.IdentifierRuns(a), I.IdentifierRuns(b), source, stop);
    if forall x | x in a :: Part(x) {
      OneIdentifier(a, source, stop);
    }
  }

  lemma OneIdentifier(run: string, source: Source, stop: set<string>)
    requires forall c | c in run :: Part(c)
    ensures FieldDrafts(run, source, stop)
            == if 3 <= |run| <= 80 && exists c :: c in run && !Digit(c) then SeedsOf(run, source, stop) else []
  {
    IdentifierCounts(run);
    RunDraftsAre(run, source, stop);
    assert [run][1..] == [];
    assert RunsDrafts([run], source, stop) == RunDrafts(run, source, stop) + RunsDrafts([], source, stop);
  }

  function FlatMap<T, U>(xs: seq<T>, f: T -> seq<U>): seq<U> {
    if xs == [] then [] else f(xs[0]) + FlatMap(xs[1..], f)
  }

  function TopicThenKind(stop: set<string>): Finding -> seq<Draft> {
    (f: Finding) => FieldDrafts(f.topic, FindingTopic, stop) + FieldDrafts(f.kind, FindingKind, stop)
  }

  lemma {:induction false} FindingSeeds(findings: seq<Finding>, stop: set<string>)
    ensures FindingsDrafts(findings, stop) == FlatMap(findings, TopicThenKind(stop))
  {
    if findings != [] {
      FindingSeeds(findings[1..], stop);
    }
  }

  /** A report's seeds, in the order they are added: each field's under its own name. */
  lemma ReportSeeds(input: Input, stop: set<string>)
    ensures AllDrafts(input, stop)
            == FieldDrafts(input.operation, Operation, stop)
               + (match input.runtimeHint case Some(hint) => FieldDrafts(hint, RuntimeHint, stop) case None => [])
               + FlatMap(input.findings, TopicThenKind(stop))
               + FieldDrafts(input.surface, Surface, stop)
  {
    FindingSeeds(input.findings, stop);
  }
}
