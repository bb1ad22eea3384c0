/** What a completed resolution holds: every candidate's own verdict, file after file. */
module CodeMatchVerdicts {
  import opened Basics
  import opened CodeMatch
  import opened CodeMatchResumption
  import P = PinnedContent

  /** What a candidate comes to, given what its file was found to be; a refuted one comes to nothing. */
  function Judge(c: Pending, fetched: Fetched): seq<Candidate> {
    match fetched
    case Content(text) => JudgeText(c.file, P.VerifyAgainstPinnedContent(c.file, c.textMatch, text))
    case NotFound => [Candidate(c.file, None, None, FileNotFound)]
    case Incomplete => []
  }

  function JudgeText(file: string, found: Option<P.Candidate>): seq<Candidate> {
    match found
    case None => []
    case Some(kept) =>
      match kept.range
      case None => [Candidate(file, None, None, Verified)]
      case Some(lines) => [Candidate(file, Some(lines.start), Some(lines.end), Verified)]
  }

  function All(pending: seq<seq<Pending>>): seq<Pending> {
    if pending == [] then [] else pending[0] + All(pending[1..])
  }

  function Others(cs: seq<Pending>, file: string): (others: seq<Pending>)
    ensures |others| <= |cs| && (cs != [] && cs[0].file == file ==> |others| < |cs|)
  {
    if cs == [] then [] else (if cs[0].file == file then [] else [cs[0]]) + Others(cs[1..], file)
  }

  /** The files of a list of candidates, each once, in the order of their first candidates. */
  function FilesOf(cs: seq<Pending>): seq<string>
    decreases |cs|
  {
    if cs == [] then [] else [cs[0].file] + FilesOf(Others(cs, cs[0].file))
  }

  /** The verdicts on one file's candidates, in their order. */
  function Verdicts(cs: seq<Pending>, file: string, fetched: Fetched): seq<Candidate> {
    if cs == [] then []
    else (if cs[0].file == file then Judge(cs[0], fetched) else []) + Verdicts(cs[1..], file, fetched)
  }

  function Gathered(cs: seq<Pending>, files: seq<string>, pinned: Answers): seq<Candidate> {
    if files == [] then [] else Verdicts(cs, files[0], pinned(files[0])) + Gathered(cs, files[1..], pinned)
  }

  // ------------------------------------------------------------------ one file

  lemma {:induction false} OthersJoin(a: seq<Pending>, b: seq<Pending>, file: string)
    ensures Others(a + b, file) == Others(a, file) + Others(b, file)
  {
    if a == [] {
      assert a + b == b;
    } else {
      assert (a + b)[1..] == a[1..] + b;
      OthersJoin(a[1..], b, file);
      Together(if a[0].file == file then [] else [a[0]], Others(a[1..], file), Others(b, file));
    }
  }

  lemma {:induction false} VerdictsJoin(a: seq<Pending>, b: seq<Pending>, file: string, fetched: Fetched)
    ensures Verdicts(a + b, file, fetched) == Verdicts(a, file, fetched) + Verdicts(b, file, fetched)
  {
    if a == [] {
      assert a + b == b;
    } else {
      assert (a + b)[1..] == a[1..] + b;
      VerdictsJoin(a[1..], b, file, fetched);
    }
  }

  lemma VerdictIs(c: Pending, fetched: Fetched)
    requires !fetched.Incomplete?
    ensures Judge(c, fetched) == (match Verdict(c, fetched) case Some(kept) => [kept] case None => [])
  {
    if fetched.Content? {
      P.VerifiedIff(c.file, c.textMatch, fetched.text);
    }
  }

  /** Judging a file's candidates leaves the others and adds their verdicts. */
  lemma {:induction false} TallyIs(cs: seq<Pending>, file: string, fetched: Fetched)
    requires !fetched.Incomplete?
    ensures Tallied(cs, file, fetched).others == Others(cs, file)
    ensures Tallied(cs, file, fetched).results == Verdicts(cs, file, fetched)
  {
    if cs != [] {
      var before, last := cs[..|cs| - 1], cs[|cs| - 1];
      TallyIs(before, file, fetched);
      assert cs == before + [last] && [last][1..] == [];
      OthersJoin(before, [last], file);
      VerdictsJoin(before, [last], file, fetched);
      if last.file == file {
        VerdictIs(last, fetched);
      }
    }
  }

  lemma {:induction false} JudgedIs(
      pending: seq<seq<Pending>>, resolved: seq<Matches>, file: string, fetched: Fetched, i: nat)
    requires |pending| == |resolved| && !fetched.Incomplete? && i < |pending|
    ensures var all := TalliedAll(pending, resolved, file, fetched);
            && all.pending[i] == Others(pending[i], file)
            && all.resolved[i] == Matches(resolved[i].query,
                                          resolved[i].candidates + Verdicts(pending[i], file, fetched))
  {
    TallyIs(pending[0], file, fetched);
    if i > 0 {
      JudgedIs(pending[1..], resolved[1..], file, fetched, i - 1);
    }
  }

  lemma {:induction false} AllJudged(pending: seq<seq<Pending>>, resolved: seq<Matches>, file: string, fetched: Fetched)
    requires |pending| == |resolved| && !fetched.Incomplete?
    ensures All(TalliedAll(pending, resolved, file, fetched).pending) == Others(All(pending), file)
  {
    if pending != [] {
      TallyIs(pending[0], file, fetched);
      AllJudged(pending[1..], resolved[1..], file, fetched);
      OthersJoin(pending[0], All(pending[1..]), file);
      var rest := TalliedAll(pending[1..], resolved[1..], file, fetched);
      assert TalliedAll(pending, resolved, file, fetched).pending == [Others(pending[0], file)] + rest.pending;
      assert ([Others(pending[0], file)] + rest.pending)[1..] == rest.pending;
    }
  }

  lemma {:induction false} FirstFileIs(pending: seq<seq<Pending>>)
    ensures FirstFile(pending) == if All(pending) == [] then None else Some(All(pending)[0].file)
  {
    if pending != [] {
      FirstFileIs(pending[1..]);
    }
  }

  // ------------------------------------------------------------------ all files

  lemma {:induction false} OtherVerdicts(cs: seq<Pending>, gone: string, file: string, fetched: Fetched)
    requires file != gone
    ensures Verdicts(Others(cs, gone), file, fetched) == Verdicts(cs, file, fetched)
  {
    if cs != [] {
      OtherVerdicts(cs[1..], gone, file, fetched);
      var rest := Others(cs[1..], gone);
      assert ([cs[0]] + rest)[1..] == rest;
      assert Others(cs, gone) == if cs[0].file == gone then rest else [cs[0]] + rest;
    }
  }

  lemma {:induction false} OthersHaveOther(cs: seq<Pending>, file: string)
    ensures forall c | c in Others(cs, file) :: c.file != file
  {
    if cs != [] {
      OthersHaveOther(cs[1..], file);
    }
  }

  lemma {:induction false} FilesAreTheirs(cs: seq<Pending>)
    ensures forall f | f in FilesOf(cs) :: exists c :: c in cs && c.file == f
    decreases |cs|
  {
    if cs != [] {
      var rest := Others(cs, cs[0].file);
      FilesAreTheirs(rest);
      OthersAreSome(cs, cs[0].file);
      forall f | f in FilesOf(cs) ensures exists c :: c in cs && c.file == f {
        assert f == cs[0].file || f in FilesOf(rest);
        if f == cs[0].file {
          assert cs[0] in cs;
        } else {
          var c :| c in rest && c.file == f;
        }
      }
    }
  }

  lemma {:induction false} OthersAreSome(cs: seq<Pending>, file: string)
    ensures forall c | c in Others(cs, file) :: c in cs
  {
    if cs != [] {
      OthersAreSome(cs[1..], file);
    }
  }

  lemma {:induction false} GatheredWithout(cs: seq<Pending>, gone: string, files: seq<string>, pinned: Answers)
    requires gone !in files
    ensures Gathered(Others(cs, gone), files, pinned) == Gathered(cs, files, pinned)
  {
    if files != [] {
      OtherVerdicts(cs, gone, files[0], pinned(files[0]));
      GatheredWithout(cs, gone, files[1..], pinned);
    }
  }

  lemma LaterFiles(cs: seq<Pending>, file: string)
    ensures file !in FilesOf(Others(cs, file))
  {
    OthersHaveOther(cs, file);
    FilesAreTheirs(Others(cs, file));
  }

  /** One file's turn and the rest. */
  lemma GatherStep(cs: seq<Pending>, all: seq<Pending>, pinned: Answers)
    requires all != []
    ensures var file := all[0].file;
            Gathered(cs, FilesOf(all), pinned)
            == Verdicts(cs, file, pinned(file)) + Gathered(Others(cs, file), FilesOf(Others(all, file)), pinned)
  {
    var file := all[0].file;
    LaterFiles(all, file);
    GatheredWithout(cs, file, FilesOf(Others(all, file)), pinned);
    assert ([file] + FilesOf(Others(all, file)))[1..] == FilesOf(Others(all, file));
  }

  /**
   * An uninterrupted resolution holds, for every query, the verdict on each of its candidates:
   * file after file in the order in which files first occur among all candidates, and within a
   * file in the order of the candidates.
   */
  lemma {:induction false} ResolvedAreTheVerdicts(w: Work, pinned: Answers, i: nat)
    requires Paired(w) && CodeMatchResumption.Whole(pinned) && i < |w.pending|
    ensures var done := Resumed(w, pinned).resolved;
            && |done| == |w.resolved| && done[i].query == w.resolved[i].query
            && done[i].candidates == w.resolved[i].candidates + Gathered(w.pending[i], FilesOf(All(w.pending)), pinned)
    decreases Left(w.pending)
  {
    FirstFileIs(w.pending);
    var next := FirstFile(w.pending);
    if next.Some? {
      var file := next.value;
      JudgingAccounts(w.pending, w.resolved, file, pinned(file));
      ResolvedAreTheVerdicts(Judged(w, file, pinned(file)), pinned, i);
      OneFileGathers(w, pinned, file, i);
      var judged := Judged(w, file, pinned(file));
      assert Resumed(w, pinned) == Resumed(judged, pinned);
    } else {
      assert Gathered(w.pending[i], FilesOf(All(w.pending)), pinned) == [];
    }
  }

  /** After one file's turn the gathered verdicts are what they would have been. */
  lemma OneFileGathers(w: Work, pinned: Answers, file: string, i: nat)
    requires Paired(w) && i < |w.pending| && !pinned(file).Incomplete? && FirstFile(w.pending) == Some(file)
    ensures var judged := Judged(w, file, pinned(file));
            && |judged.resolved| == |w.resolved| && judged.resolved[i].query == w.resolved[i].query
            && judged.resolved[i].candidates + Gathered(judged.pending[i], FilesOf(All(judged.pending)), pinned)
               == w.resolved[i].candidates + Gathered(w.pending[i], FilesOf(All(w.pending)), pinned)
  {
    var judged := Judged(w, file, pinned(file));
    FirstFileIs(w.pending);
    JudgedIs(w.pending, w.resolved, file, pinned(file), i);
    AllJudged(w.pending, w.resolved, file, pinned(file));
    GatherStep(w.pending[i], All(w.pending), pinned);
    Together(w.resolved[i].candidates, Verdicts(w.pending[i], file, pinned(file)),
             Gathered(judged.pending[i], FilesOf(All(judged.pending)), pinned));
  }

  lemma Together<T>(a: seq<T>, b: seq<T>, c: seq<T>)
    ensures a + b + c == a + (b + c)
  {}
}
