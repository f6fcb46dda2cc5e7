/** Scoring a list of samples with periodic saves, by attempts that may be killed at any moment and resume from the file. */
module ResumableScoring {
  import opened Options
  import opened Arithmetic

  datatype Sample<D> = Sample(uid: string, data: D)

  datatype Analysis<R> = Analysis(uid: string, result: R)

  // ---------------------------------------------------------------------------------------------
  // The saved file as a dictionary
  // ---------------------------------------------------------------------------------------------

  function Uids<R>(s: seq<Analysis<R>>): set<string> {
    set i | 0 <= i < |s| :: s[i].uid
  }

  ghost predicate Distinct<R>(s: seq<Analysis<R>>) {
    forall i, j :: 0 <= i < j < |s| ==> s[i].uid != s[j].uid
  }

  ghost predicate DistinctSamples<D>(s: seq<Sample<D>>) {
    forall i, j :: 0 <= i < j < |s| ==> s[i].uid != s[j].uid
  }

  /** A dictionary keeps the place of a key it has, and takes the new value. */
  function Insert<R>(dict: seq<Analysis<R>>, a: Analysis<R>): (r: seq<Analysis<R>>)
    ensures |r| <= |dict| + 1
  {
    if dict == [] then [a]
    else if dict[0].uid == a.uid then [a] + dict[1..]
    else [dict[0]] + Insert(dict[1..], a)
  }

  function ByUid<R>(s: seq<Analysis<R>>): (dict: seq<Analysis<R>>)
    ensures |dict| <= |s|
  {
    if s == [] then [] else Insert(ByUid(s[..|s| - 1]), s[|s| - 1])
  }

  lemma {:induction false} InsertNew<R>(dict: seq<Analysis<R>>, a: Analysis<R>)
    requires forall i :: 0 <= i < |dict| ==> dict[i].uid != a.uid
    ensures Insert(dict, a) == dict + [a]
  {
    if dict != [] {
      InsertNew(dict[1..], a);
    }
  }

  lemma {:induction false} ByUidOfDistinct<R>(s: seq<Analysis<R>>)
    requires Distinct(s)
    ensures ByUid(s) == s
  {
    if s != [] {
      var init := s[..|s| - 1];
      ByUidOfDistinct(init);
      InsertNew(init, s[|s| - 1]);
    }
  }

  lemma {:induction false} InsertUids<R>(dict: seq<Analysis<R>>, a: Analysis<R>)
    ensures Uids(Insert(dict, a)) == Uids(dict) + {a.uid}
  {
    var r := Insert(dict, a);
    if dict == [] {
      assert r[0].uid in Uids(r);
    } else {
      InsertUids(dict[1..], a);
      SplitUids(dict);
      SplitUids(r);
      if dict[0].uid != a.uid {
        assert r[1..] == Insert(dict[1..], a);
      }
    }
  }

  lemma SplitUids<R>(s: seq<Analysis<R>>)
    requires s != []
    ensures Uids(s) == {s[0].uid} + Uids(s[1..])
  {
    forall u | u in Uids(s)
      ensures u in {s[0].uid} + Uids(s[1..])
    {
      var i :| 0 <= i < |s| && s[i].uid == u;
      if i > 0 {
        assert s[1..][i - 1].uid == u;
      }
    }
    forall u | u in Uids(s[1..])
      ensures u in Uids(s)
    {
      var i :| 0 <= i < |s[1..]| && s[1..][i].uid == u;
      assert s[i + 1].uid == u;
    }
  }

  lemma AppendUids<R>(a: seq<Analysis<R>>, b: seq<Analysis<R>>)
    ensures Uids(a + b) == Uids(a) + Uids(b)
  {
    forall u | u in Uids(a) + Uids(b)
      ensures u in Uids(a + b)
    {
      if u in Uids(a) {
        var i :| 0 <= i < |a| && a[i].uid == u;
        assert (a + b)[i].uid == u;
      } else {
        var i :| 0 <= i < |b| && b[i].uid == u;
        assert (a + b)[|a| + i].uid == u;
      }
    }
  }

  lemma {:induction false} ByUidUids<R>(s: seq<Analysis<R>>)
    ensures Uids(ByUid(s)) == Uids(s)
  {
    if s != [] {
      var init, last := s[..|s| - 1], s[|s| - 1];
      ByUidUids(init);
      InsertUids(ByUid(init), last);
      AppendUids(init, [last]);
      assert s == init + [last] && [last][0].uid == last.uid;
      assert Uids([last]) == {last.uid};
    }
  }

  // ---------------------------------------------------------------------------------------------
  // One attempt
  // ---------------------------------------------------------------------------------------------

  /** One attempt: the samples it is given, how it scores them, after how many steps it is killed if it has not finished, and
      whether the file could be read. A step scores one sample or writes the file. */
  datatype Attempt<!D, !R> = Attempt(samples: seq<Sample<D>>, score: Sample<D> -> R, budget: nat, readable: bool)

  function Load<R>(saved: Option<seq<Analysis<R>>>, readable: bool): seq<Analysis<R>> {
    if saved.Some? && readable then ByUid(saved.value) else []
  }

  function Remaining<D>(samples: seq<Sample<D>>, done: set<string>): (r: seq<Sample<D>>)
    ensures |r| <= |samples|
  {
    if samples == [] then []
    else if samples[0].uid in done then Remaining(samples[1..], done)
    else [samples[0]] + Remaining(samples[1..], done)
  }

  function Scored<D, R>(samples: seq<Sample<D>>, score: Sample<D> -> R): (r: seq<Analysis<R>>)
    ensures |r| == |samples|
    ensures forall i :: 0 <= i < |samples| ==> r[i] == Analysis(samples[i].uid, score(samples[i]))
  {
    seq(|samples|, i requires 0 <= i < |samples| => Analysis(samples[i].uid, score(samples[i])))
  }

  /** The steps until n samples are scored and all saves due by then are made. */
  function StepsFor(n: nat, freq: nat): nat
    requires freq > 0
  {
    n + Quotient(n, freq)
  }

  /** How many samples the last save before the end of the budget holds: each round is freq scores and one save. */
  function Kept(budget: nat, freq: nat): nat {
    Quotient(budget, freq + 1) * freq
  }

  function Left(budget: nat, freq: nat): nat {
    budget % (freq + 1)
  }

  function Finishes<D, R>(a: Attempt<D, R>, saved: Option<seq<Analysis<R>>>, freq: nat): bool
    requires freq > 0
  {
    var todo := Remaining(a.samples, Uids(Load(saved, a.readable)));
    todo == [] || a.budget > StepsFor(|todo|, freq)
  }

  /** The file when the last save, if there was one, holds `kept` of the samples to do. */
  ghost function SavedAt<D, R>(saved: Option<seq<Analysis<R>>>, completed: seq<Analysis<R>>, todo: seq<Sample<D>>,
                               score: Sample<D> -> R, kept: nat): Option<seq<Analysis<R>>>
    requires kept <= |todo|
  {
    if kept == 0 then saved else Some(completed + Scored(todo[..kept], score))
  }

  /** The file after the attempt. */
  ghost function After<D, R>(a: Attempt<D, R>, saved: Option<seq<Analysis<R>>>, freq: nat): Option<seq<Analysis<R>>>
    requires freq > 0
  {
    var completed := Load(saved, a.readable);
    var todo := Remaining(a.samples, Uids(completed));
    if Finishes(a, saved, freq) then SavedAt(saved, completed, todo, a.score, |todo|)
    else if Kept(a.budget, freq) <= |todo| then SavedAt(saved, completed, todo, a.score, Kept(a.budget, freq))
    else saved
  }

  function LastSave(i: nat, freq: nat): (kept: nat)
    requires freq > 0
    ensures kept <= i
  {
    i - i % freq
  }

  lemma StepsForNext(i: nat, freq: nat)
    requires freq > 0
    ensures StepsFor(i + 1, freq) == StepsFor(i, freq) + if (i + 1) % freq == 0 then 2 else 1
    ensures LastSave(i + 1, freq) == if (i + 1) % freq == 0 then i + 1 else LastSave(i, freq)
    ensures (i + 1) % freq == 0 ==> LastSave(i, freq) == i + 1 - freq
  {
    var q, r := Quotient(i, freq), i % freq;
    assert i == q * freq + r;
    if r + 1 == freq {
      assert (q + 1) * freq == q * freq + freq;
      QuotientIsUnique(i + 1, freq, q + 1, 0);
    } else {
      QuotientIsUnique(i + 1, freq, q, r + 1);
    }
  }

  lemma BudgetBeforeScoring(i: nat, freq: nat)
    requires freq > 0
    ensures Kept(StepsFor(i, freq), freq) == LastSave(i, freq)
    ensures LastSave(i, freq) + Left(StepsFor(i, freq), freq) == i
  {
    var q, r := Quotient(i, freq), i % freq;
    assert i == q * freq + r;
    assert q * (freq + 1) == q * freq + q;
    QuotientIsUnique(StepsFor(i, freq), freq + 1, q, r);
  }

  lemma BudgetBeforeSaving(i: nat, freq: nat)
    requires freq > 0 && (i + 1) % freq == 0
    ensures Kept(StepsFor(i, freq) + 1, freq) == LastSave(i, freq) == i + 1 - freq
    ensures Left(StepsFor(i, freq) + 1, freq) == freq
  {
    var q := Quotient(i, freq);
    StepsForNext(i, freq);
    assert i == q * freq + i % freq;
    assert q * (freq + 1) == q * freq + q;
    QuotientIsUnique(StepsFor(i, freq) + 1, freq + 1, q, freq);
  }

  function ToDo<D, R>(a: Attempt<D, R>, saved: Option<seq<Analysis<R>>>): seq<Sample<D>> {
    Remaining(a.samples, Uids(Load(saved, a.readable)))
  }

  /** The budget ends while sample i, or the final save, is due. */
  lemma KilledBeforeScoring<D, R>(a: Attempt<D, R>, saved: Option<seq<Analysis<R>>>, i: nat, freq: nat)
    requires freq > 0 && a.budget == StepsFor(i, freq) && i <= |ToDo(a, saved)| && ToDo(a, saved) != []
    ensures After(a, saved, freq) == SavedAt(saved, Load(saved, a.readable), ToDo(a, saved), a.score, LastSave(i, freq))
    ensures !Finishes(a, saved, freq) && i == Kept(a.budget, freq) + Left(a.budget, freq)
  {
    BudgetBeforeScoring(i, freq);
    StepsAreMonotone(i, |ToDo(a, saved)|, freq);
  }

  /** The budget ends while the save after sample i is due. */
  lemma KilledBeforeSaving<D, R>(a: Attempt<D, R>, saved: Option<seq<Analysis<R>>>, i: nat, freq: nat)
    requires freq > 0 && a.budget == StepsFor(i, freq) + 1 && i < |ToDo(a, saved)|
    ensures (i + 1) % freq == 0 ==>
              && After(a, saved, freq)
                 == SavedAt(saved, Load(saved, a.readable), ToDo(a, saved), a.score, LastSave(i, freq))
              && !Finishes(a, saved, freq) && i + 1 == Kept(a.budget, freq) + Left(a.budget, freq)
  {
    if (i + 1) % freq == 0 {
      BudgetBeforeSaving(i, freq);
      StepsForNext(i, freq);
      StepsAreMonotone(i + 1, |ToDo(a, saved)|, freq);
    }
  }

  class ResultsFile<R> {
    var saved: Option<seq<Analysis<R>>>

    constructor ()
      ensures saved == None
    {
      saved := None;
    }
  }

  /** The pipeline. When it is killed, `scored` samples have been scored, and the file holds all but budget mod (freq + 1) of
      them. */
  method Evaluate<D, R>(file: ResultsFile<R>, a: Attempt<D, R>, freq: nat)
      returns (finished: bool, analyses: seq<Analysis<R>>, scored: nat)
    requires freq > 0
    modifies file
    ensures file.saved == After(a, old(file.saved), freq)
    ensures finished == Finishes(a, old(file.saved), freq)
    ensures finished ==> var completed := Load(old(file.saved), a.readable);
                         analyses == completed + Scored(Remaining(a.samples, Uids(completed)), a.score)
    ensures !finished ==> scored == Kept(a.budget, freq) + Left(a.budget, freq)
  {
    var completed := Load(file.saved, a.readable);
    var remaining := Remaining(a.samples, Uids(completed));
    analyses, scored := completed, 0;
    if remaining == [] {
      return true, analyses, scored;
    }
    var left := a.budget;
    while scored < |remaining|
      invariant 0 <= scored <= |remaining| && left >= 0
      invariant a.budget - left == StepsFor(scored, freq)
      invariant analyses == completed + Scored(remaining[..scored], a.score)
      invariant file.saved == SavedAt(old(file.saved), completed, remaining, a.score, LastSave(scored, freq))
    {
      if left == 0 {
        KilledBeforeScoring(a, old(file.saved), scored, freq);
        return false, analyses, scored;
      }
      left := left - 1;
      ScoreOne(remaining, a.score, scored);
      StepsForNext(scored, freq);
      analyses := analyses + [Analysis(remaining[scored].uid, a.score(remaining[scored]))];
      scored := scored + 1;
      if scored % freq == 0 {
        if left == 0 {
          KilledBeforeSaving(a, old(file.saved), scored - 1, freq);
          return false, analyses, scored;
        }
        left := left - 1;
        file.saved := Some(analyses);
      }
    }
    assert remaining[..scored] == remaining;
    if left == 0 {
      KilledBeforeScoring(a, old(file.saved), scored, freq);
      return false, analyses, scored;
    }
    file.saved := Some(analyses);
    finished := true;
  }

  lemma ScoreOne<D, R>(todo: seq<Sample<D>>, score: Sample<D> -> R, i: nat)
    requires i < |todo|
    ensures Scored(todo[..i + 1], score) == Scored(todo[..i], score) + [Analysis(todo[i].uid, score(todo[i]))]
  {
  }

  lemma StepsAreMonotone(m: nat, n: nat, freq: nat)
    requires freq > 0 && m <= n
    ensures StepsFor(m, freq) <= StepsFor(n, freq)
  {
    QuotientBounds(m, freq);
    QuotientBounds(n, freq);
    ProductIsMonotone(Quotient(n, freq) + 1, Quotient(m, freq), freq);
  }

  // ---------------------------------------------------------------------------------------------
  // What is left to do
  // ---------------------------------------------------------------------------------------------

  function SampleUids<D>(s: seq<Sample<D>>): set<string> {
    set i | 0 <= i < |s| :: s[i].uid
  }

  lemma ScoredUids<D, R>(s: seq<Sample<D>>, score: Sample<D> -> R)
    ensures Uids(Scored(s, score)) == SampleUids(s)
  {
    forall u | u in SampleUids(s)
      ensures u in Uids(Scored(s, score))
    {
      var i :| 0 <= i < |s| && s[i].uid == u;
      assert Scored(s, score)[i].uid == u;
    }
  }

  lemma SplitSampleUids<D>(s: seq<Sample<D>>)
    requires s != []
    ensures SampleUids(s) == {s[0].uid} + SampleUids(s[1..])
  {
    forall u | u in SampleUids(s)
      ensures u in {s[0].uid} + SampleUids(s[1..])
    {
      var i :| 0 <= i < |s| && s[i].uid == u;
      if i > 0 {
        assert s[1..][i - 1].uid == u;
      }
    }
    forall u | u in SampleUids(s[1..])
      ensures u in SampleUids(s)
    {
      var i :| 0 <= i < |s[1..]| && s[1..][i].uid == u;
      assert s[i + 1].uid == u;
    }
  }

  lemma {:induction false} RemainingHasUids<D>(samples: seq<Sample<D>>, done: set<string>)
    ensures SampleUids(Remaining(samples, done)) == SampleUids(samples) - done
  {
    if samples != [] {
      var all, rest := Remaining(samples, done), Remaining(samples[1..], done);
      RemainingHasUids(samples[1..], done);
      SplitSampleUids(samples);
      if samples[0].uid !in done {
        SplitSampleUids(all);
        assert all[1..] == rest;
      }
    }
  }

  lemma {:induction false} RemainingIsDistinct<D>(samples: seq<Sample<D>>, done: set<string>)
    requires DistinctSamples(samples)
    ensures DistinctSamples(Remaining(samples, done))
  {
    if samples != [] {
      var rest := Remaining(samples[1..], done);
      RemainingIsDistinct(samples[1..], done);
      RemainingHasUids(samples[1..], done);
      forall j | 0 <= j < |rest|
        ensures rest[j].uid != samples[0].uid
      {
        assert rest[j].uid in SampleUids(rest);
      }
    }
  }

  /** The samples to do have the uids that are not done, and keep their distinctness. */
  lemma RemainingUids<D>(samples: seq<Sample<D>>, done: set<string>)
    ensures SampleUids(Remaining(samples, done)) == SampleUids(samples) - done
    ensures DistinctSamples(samples) ==> DistinctSamples(Remaining(samples, done))
  {
    RemainingHasUids(samples, done);
    if DistinctSamples(samples) {
      RemainingIsDistinct(samples, done);
    }
  }

  lemma {:induction false} RemainingOfDone<D>(samples: seq<Sample<D>>, done: set<string>)
    requires SampleUids(samples) <= done
    ensures Remaining(samples, done) == []
  {
    if samples != [] {
      SplitSampleUids(samples);
      RemainingOfDone(samples[1..], done);
    }
  }

  lemma {:induction false} RemainingOfUndone<D>(samples: seq<Sample<D>>, done: set<string>)
    requires SampleUids(samples) !! done
    ensures Remaining(samples, done) == samples
  {
    if samples != [] {
      SplitSampleUids(samples);
      RemainingOfUndone(samples[1..], done);
    }
  }

  lemma {:induction false} RemainingTwice<D>(samples: seq<Sample<D>>, done: set<string>, more: set<string>)
    ensures Remaining(samples, done + more) == Remaining(Remaining(samples, done), more)
  {
    if samples != [] {
      RemainingTwice(samples[1..], done, more);
    }
  }

  lemma {:induction false} RemainingAppend<D>(a: seq<Sample<D>>, b: seq<Sample<D>>, done: set<string>)
    ensures Remaining(a + b, done) == Remaining(a, done) + Remaining(b, done)
  {
    if a == [] {
      assert a + b == b;
    } else {
      assert (a + b)[1..] == a[1..] + b;
      RemainingAppend(a[1..], b, done);
    }
  }

  /** After the first `kept` of the samples to do are in the file, exactly the others are left. */
  lemma RemainingAfterKept<D>(samples: seq<Sample<D>>, done: set<string>, kept: nat)
    requires DistinctSamples(samples) && kept <= |Remaining(samples, done)|
    ensures var todo := Remaining(samples, done);
            Remaining(samples, done + SampleUids(todo[..kept])) == todo[kept..]
  {
    var todo := Remaining(samples, done);
    RemainingUids(samples, done);
    RemainingTwice(samples, done, SampleUids(todo[..kept]));
    RemainingOfRest(todo, kept);
  }

  lemma RemainingOfRest<D>(todo: seq<Sample<D>>, kept: nat)
    requires DistinctSamples(todo) && kept <= |todo|
    ensures Remaining(todo, SampleUids(todo[..kept])) == todo[kept..]
  {
    var first, rest := todo[..kept], todo[kept..];
    assert todo == first + rest;
    RestIsUndone(todo, kept);
    RemainingAppend(first, rest, SampleUids(first));
    RemainingOfDone(first, SampleUids(first));
    RemainingOfUndone(rest, SampleUids(first));
  }

  lemma RestIsUndone<D>(todo: seq<Sample<D>>, kept: nat)
    requires DistinctSamples(todo) && kept <= |todo|
    ensures SampleUids(todo[kept..]) !! SampleUids(todo[..kept])
  {
  }

  // ---------------------------------------------------------------------------------------------
  // What every attempt keeps
  // ---------------------------------------------------------------------------------------------

  function Entries<R>(saved: Option<seq<Analysis<R>>>): seq<Analysis<R>> {
    if saved.Some? then saved.value else []
  }

  /** How many of the samples to do are in the file after the attempt. */
  function Added<D, R>(a: Attempt<D, R>, saved: Option<seq<Analysis<R>>>, freq: nat): (kept: nat)
    requires freq > 0
    ensures kept <= |Remaining(a.samples, Uids(Load(saved, a.readable)))|
  {
    var todo := Remaining(a.samples, Uids(Load(saved, a.readable)));
    if Finishes(a, saved, freq) then |todo|
    else if Kept(a.budget, freq) <= |todo| then Kept(a.budget, freq)
    else 0
  }

  lemma ScoredAfter<D, R>(completed: seq<Analysis<R>>, todo: seq<Sample<D>>, score: Sample<D> -> R)
    requires Distinct(completed) && DistinctSamples(todo) && SampleUids(todo) !! Uids(completed)
    ensures Distinct(completed + Scored(todo, score))
    ensures Uids(completed + Scored(todo, score)) == Uids(completed) + SampleUids(todo)
  {
    var all := completed + Scored(todo, score);
    ScoredUids(todo, score);
    AppendUids(completed, Scored(todo, score));
    forall i, j | 0 <= i < j < |all|
      ensures all[i].uid != all[j].uid
    {
      if i < |completed| <= j {
        assert completed[i].uid in Uids(completed) && Scored(todo, score)[j - |completed|].uid in Uids(Scored(todo, score));
      }
    }
  }

  lemma PrefixUids<D>(s: seq<Sample<D>>, k: nat)
    requires k <= |s|
    ensures SampleUids(s[..k]) <= SampleUids(s)
  {
  }

  /** An attempt that can read the file only appends to it, each uid stays once, and what it added is not left to do. */
  lemma AttemptAppends<D, R>(a: Attempt<D, R>, saved: Option<seq<Analysis<R>>>, freq: nat)
    requires freq > 0 && a.readable && DistinctSamples(a.samples) && Distinct(Entries(saved))
    ensures var before, after := Entries(saved), Entries(After(a, saved, freq));
            && before <= after && Distinct(after) && |after| == |before| + Added(a, saved, freq)
            && var todo := Remaining(a.samples, Uids(before));
            && Added(a, saved, freq) <= |todo|
            && Uids(after) == Uids(before) + SampleUids(todo[..Added(a, saved, freq)])
            && Remaining(a.samples, Uids(after)) == todo[Added(a, saved, freq)..]
            && (Added(a, saved, freq) == 0 ==> After(a, saved, freq) == saved)
  {
    var before := Entries(saved);
    ByUidOfDistinct(before);
    assert Load(saved, a.readable) == before;
    var todo := Remaining(a.samples, Uids(before));
    var kept := Added(a, saved, freq);
    assert todo[..|todo|] == todo;
    assert After(a, saved, freq) == SavedAt(saved, before, todo, a.score, kept);
    RemainingUids(a.samples, Uids(before));
    PrefixUids(todo, kept);
    ScoredAfter(before, todo[..kept], a.score);
    RemainingAfterKept(a.samples, Uids(before), kept);
    if kept == 0 {
      assert before + Scored(todo[..kept], a.score) == before;
    }
  }

  /** A finished attempt covers all its samples, and none that was not there before or among them. */
  lemma FinishedCoversAll<D, R>(a: Attempt<D, R>, saved: Option<seq<Analysis<R>>>, freq: nat)
    requires freq > 0 && a.readable && DistinctSamples(a.samples) && Distinct(Entries(saved)) && Finishes(a, saved, freq)
    ensures Uids(Entries(After(a, saved, freq))) == Uids(Entries(saved)) + SampleUids(a.samples)
    ensures Remaining(a.samples, Uids(Entries(After(a, saved, freq)))) == []
  {
    AttemptAppends(a, saved, freq);
    ByUidOfDistinct(Entries(saved));
    assert Load(saved, a.readable) == Entries(saved);
    var todo := Remaining(a.samples, Uids(Entries(saved)));
    assert todo[..|todo|] == todo;
    RemainingUids(a.samples, Uids(Entries(saved)));
  }

  // ---------------------------------------------------------------------------------------------
  // Any number of attempts
  // ---------------------------------------------------------------------------------------------

  ghost function RunAll<D, R>(attempts: seq<Attempt<D, R>>, saved: Option<seq<Analysis<R>>>, freq: nat):
      Option<seq<Analysis<R>>>
    requires freq > 0
  {
    if attempts == [] then saved else RunAll(attempts[1..], After(attempts[0], saved, freq), freq)
  }

  ghost predicate AllResume<D, R>(attempts: seq<Attempt<D, R>>) {
    forall a | a in attempts :: a.readable && DistinctSamples(a.samples)
  }

  /** Over any sequence of attempts, each killed wherever: every uid is in the file at most once, and no analysis that was
      ever saved is lost or changed. */
  lemma {:induction false} NothingSavedIsLost<D, R>(attempts: seq<Attempt<D, R>>, saved: Option<seq<Analysis<R>>>, freq: nat)
    requires freq > 0 && AllResume(attempts) && Distinct(Entries(saved))
    ensures Distinct(Entries(RunAll(attempts, saved, freq)))
    ensures Entries(saved) <= Entries(RunAll(attempts, saved, freq))
  {
    if attempts != [] {
      assert attempts[0] in attempts && forall a | a in attempts[1..] :: a in attempts;
      AttemptAppends(attempts[0], saved, freq);
      NothingSavedIsLost(attempts[1..], After(attempts[0], saved, freq), freq);
    }
  }

  ghost predicate AllOn<D, R>(attempts: seq<Attempt<D, R>>, samples: seq<Sample<D>>, minBudget: nat) {
    forall a | a in attempts :: a.readable && a.samples == samples && a.budget >= minBudget
  }

  lemma KeptAtLeast(budget: nat, freq: nat)
    requires freq > 0 && budget > freq
    ensures Kept(budget, freq) >= freq
  {
    QuotientBounds(budget, freq + 1);
    if Quotient(budget, freq + 1) == 0 {
      assert false;
    }
    ProductIsMonotone(1, Quotient(budget, freq + 1), freq);
  }

  lemma RoundsFit(q: nat, r: nat, m: nat, t: nat, freq: nat)
    requires r <= freq && t < freq && q * freq + q + r <= m * freq + t + m
    ensures q * freq + r <= m * freq + t
  {
    ProductIsMonotone(m + 1, q, freq);
    ProductIsMonotone(q + 1, m, freq);
    assert (m + 1) * freq == m * freq + freq;
    assert (q + 1) * freq == q * freq + freq;
  }

  lemma KeptWithin(budget: nat, freq: nat, n: nat)
    requires freq > 0 && budget <= StepsFor(n, freq)
    ensures Kept(budget, freq) + Left(budget, freq) <= n
  {
    var q, r := Quotient(budget, freq + 1), Left(budget, freq);
    var m, t := Quotient(n, freq), n % freq;
    assert budget == q * (freq + 1) + r && q * (freq + 1) == q * freq + q;
    assert n == m * freq + t;
    RoundsFit(q, r, m, t, freq);
  }

  /** Unfinished attempts with a budget of at least one round save at least one round. */
  lemma AttemptProgress<D, R>(a: Attempt<D, R>, saved: Option<seq<Analysis<R>>>, freq: nat)
    requires freq > 0 && a.readable && DistinctSamples(a.samples) && Distinct(Entries(saved)) && a.budget > freq
    ensures var todo := Remaining(a.samples, Uids(Entries(saved)));
            |Remaining(a.samples, Uids(Entries(After(a, saved, freq))))| <= if |todo| > freq then |todo| - freq else 0
  {
    AttemptAppends(a, saved, freq);
    ByUidOfDistinct(Entries(saved));
    assert Load(saved, a.readable) == Entries(saved);
    var todo := Remaining(a.samples, Uids(Entries(saved)));
    if !Finishes(a, saved, freq) {
      KeptAtLeast(a.budget, freq);
      KeptWithin(a.budget, freq, |todo|);
    }
  }

  /** What that many rounds score. */
  function InRounds(rounds: nat, freq: nat): nat {
    if rounds == 0 then 0 else freq + InRounds(rounds - 1, freq)
  }

  lemma {:induction false} InRoundsIsProduct(rounds: nat, freq: nat)
    ensures InRounds(rounds, freq) == Product(rounds, freq)
  {
    if rounds > 0 {
      InRoundsIsProduct(rounds - 1, freq);
      ProductGrows(rounds, freq);
    }
  }

  function LeftToDo<D, R>(samples: seq<Sample<D>>, saved: Option<seq<Analysis<R>>>): nat {
    |Remaining(samples, Uids(Entries(saved)))|
  }

  /** There are as many attempts as the samples left to do need rounds. */
  ghost predicate CanCatchUp<D, R>(attempts: seq<Attempt<D, R>>, samples: seq<Sample<D>>, saved: Option<seq<Analysis<R>>>,
                                   freq: nat) {
    && AllOn(attempts, samples, freq + 1) && Distinct(Entries(saved))
    && LeftToDo(samples, saved) <= InRounds(|attempts|, freq)
  }

  lemma FirstAttempt<D, R>(attempts: seq<Attempt<D, R>>, samples: seq<Sample<D>>, saved: Option<seq<Analysis<R>>>, freq: nat)
    requires freq > 0 && DistinctSamples(samples) && attempts != [] && CanCatchUp(attempts, samples, saved, freq)
    ensures CanCatchUp(attempts[1..], samples, After(attempts[0], saved, freq), freq)
  {
    var a, rest := attempts[0], attempts[1..];
    assert a in attempts && forall b | b in rest :: b in attempts;
    AttemptAppends(a, saved, freq);
    AttemptProgress(a, saved, freq);
    assert InRounds(|attempts|, freq) == freq + InRounds(|rest|, freq);
  }

  lemma {:induction false} AttemptsCatchUp<D, R>(attempts: seq<Attempt<D, R>>, samples: seq<Sample<D>>,
                                                 saved: Option<seq<Analysis<R>>>, freq: nat)
    requires freq > 0 && DistinctSamples(samples) && CanCatchUp(attempts, samples, saved, freq)
    ensures LeftToDo(samples, RunAll(attempts, saved, freq)) == 0
  {
    if attempts != [] {
      FirstAttempt(attempts, samples, saved, freq);
      AttemptsCatchUp(attempts[1..], samples, After(attempts[0], saved, freq), freq);
    }
  }

  lemma {:induction false} OnlySamplesAreSaved<D, R>(attempts: seq<Attempt<D, R>>, samples: seq<Sample<D>>,
                                                     saved: Option<seq<Analysis<R>>>, freq: nat)
    requires freq > 0 && AllOn(attempts, samples, 0) && DistinctSamples(samples) && Distinct(Entries(saved))
    requires Uids(Entries(saved)) <= SampleUids(samples)
    ensures Uids(Entries(RunAll(attempts, saved, freq))) <= SampleUids(samples)
  {
    if attempts != [] {
      assert attempts[0] in attempts && forall a | a in attempts[1..] :: a in attempts;
      AttemptAppends(attempts[0], saved, freq);
      var todo := Remaining(samples, Uids(Entries(saved)));
      RemainingUids(samples, Uids(Entries(saved)));
      PrefixUids(todo, Added(attempts[0], saved, freq));
      OnlySamplesAreSaved(attempts[1..], samples, After(attempts[0], saved, freq), freq);
    }
  }

  lemma {:induction false} DistinctCount<R>(s: seq<Analysis<R>>)
    requires Distinct(s)
    ensures |Uids(s)| == |s|
  {
    if s != [] {
      SplitUids(s);
      DistinctCount(s[1..]);
      forall a | a in s[1..]
        ensures a.uid != s[0].uid
      {
        var i :| 1 <= i < |s| && s[i] == a;
      }
      assert s[0].uid !in Uids(s[1..]);
    } else {
      assert Uids(s) == {};
    }
  }

  /** Enough attempts complete the work: if each one gets at least one round done before it is killed, the samples are all
      in the file, each exactly once, after one attempt per round. */
  lemma EnoughAttemptsComplete<D, R>(attempts: seq<Attempt<D, R>>, samples: seq<Sample<D>>, freq: nat)
    requires freq > 0 && AllOn(attempts, samples, freq + 1) && DistinctSamples(samples)
    requires |samples| <= Product(|attempts|, freq)
    ensures var entries := Entries(RunAll(attempts, None, freq));
            Distinct(entries) && Uids(entries) == SampleUids(samples) && |entries| == |samples|
  {
    var none: Option<seq<Analysis<R>>> := None;
    var entries := Entries(RunAll(attempts, none, freq));
    assert Uids(Entries(none)) == {};
    assert AllOn(attempts, samples, 0) && AllResume(attempts);
    InRoundsIsProduct(|attempts|, freq);
    AttemptsCatchUp(attempts, samples, none, freq);
    OnlySamplesAreSaved(attempts, samples, none, freq);
    NothingSavedIsLost(attempts, none, freq);
    RemainingUids(samples, Uids(entries));
    assert SampleUids<D>([]) == {};
    NothingOutside(SampleUids(samples), Uids(entries));
    SameUidsSameCount(samples, entries);
  }

  lemma NothingOutside(a: set<string>, b: set<string>)
    ensures a - b == {} ==> a <= b
  {
    if !(a <= b) {
      var u :| u in a && u !in b;
      assert u in a - b;
    }
  }

  lemma SameUidsSameCount<D, R>(samples: seq<Sample<D>>, entries: seq<Analysis<R>>)
    requires DistinctSamples(samples) && Distinct(entries) && Uids(entries) == SampleUids(samples)
    ensures |entries| == |samples|
  {
    var unit := (s: Sample<D>) => ();
    ScoredUids(samples, unit);
    DistinctCount(Scored(samples, unit));
    DistinctCount(entries);
  }

  /** An attempt that does not finish changes the file exactly when its budget covers one round of scores and their save:
      killed earlier each time, the evaluation repeats the same samples for ever. */
  lemma AttemptSavesIff<D, R>(a: Attempt<D, R>, saved: Option<seq<Analysis<R>>>, freq: nat)
    requires freq > 0 && a.readable && DistinctSamples(a.samples) && Distinct(Entries(saved)) && !Finishes(a, saved, freq)
    ensures After(a, saved, freq) != saved <==> a.budget > freq
  {
    AttemptAppends(a, saved, freq);
    ByUidOfDistinct(Entries(saved));
    var todo := Remaining(a.samples, Uids(Load(saved, a.readable)));
    assert Load(saved, a.readable) == Entries(saved);
    KeptWithin(a.budget, freq, |todo|);
    NothingKept(a.budget, freq);
    if a.budget > freq {
      KeptAtLeast(a.budget, freq);
    }
  }

  lemma NothingKept(budget: nat, freq: nat)
    ensures budget <= freq ==> Kept(budget, freq) == 0
  {
    if budget <= freq {
      QuotientIsUnique(budget, freq + 1, 0, budget);
    }
  }

  // ---------------------------------------------------------------------------------------------
  // What a kill costs
  // ---------------------------------------------------------------------------------------------

  /** A killed attempt has scored Left(budget) samples that are not in the file: at most freq of them, and all freq exactly
      when it was killed after scoring the last sample of a round and before the save. */
  lemma LossIsFreqIff(budget: nat, freq: nat, n: nat)
    requires freq > 0 && budget <= StepsFor(n, freq)
    ensures Left(budget, freq) <= freq
    ensures Left(budget, freq) == freq <==> exists i :: BetweenScoreAndSave(i, budget, freq, n)
  {
    if Left(budget, freq) == freq {
      var i := Kept(budget, freq) + freq - 1;
      var q := Quotient(budget, freq + 1);
      KeptWithin(budget, freq, n);
      assert budget == q * (freq + 1) + freq && q * (freq + 1) == q * freq + q;
      assert (q + 1) * freq == q * freq + freq;
      ExactQuotient(q + 1, freq);
      QuotientIsUnique(i, freq, q, freq - 1);
      assert BetweenScoreAndSave(i, budget, freq, n);
    }
    if i :| BetweenScoreAndSave(i, budget, freq, n) {
      BudgetBeforeSaving(i, freq);
    }
  }

  ghost predicate BetweenScoreAndSave(i: nat, budget: nat, freq: nat, n: nat)
    requires freq > 0
  {
    i < n && (i + 1) % freq == 0 && budget == StepsFor(i, freq) + 1
  }

  ghost predicate LosesUid<R>(before: seq<Analysis<R>>, after: seq<Analysis<R>>) {
    exists u :: u in Uids(before) && u !in Uids(after)
  }

  /** Some sample from number m on is in the file. */
  ghost predicate HasLater<D, R>(samples: seq<Sample<D>>, m: nat, saved: seq<Analysis<R>>) {
    exists i :: m <= i < |samples| && samples[i].uid in Uids(saved)
  }

  lemma HasLaterIff<D, R>(samples: seq<Sample<D>>, m: nat, saved: seq<Analysis<R>>)
    requires DistinctSamples(samples) && m <= |samples| && Uids(saved) <= SampleUids(samples)
    ensures HasLater(samples, m, saved) <==> !(Uids(saved) <= SampleUids(samples[..m]))
  {
    if i :| m <= i < |samples| && samples[i].uid in Uids(saved) {
      assert samples[i].uid !in SampleUids(samples[..m]);
    }
    if !(Uids(saved) <= SampleUids(samples[..m])) {
      var u :| u in Uids(saved) && u !in SampleUids(samples[..m]);
      var i :| 0 <= i < |samples| && samples[i].uid == u;
      forall j | 0 <= j < m
        ensures samples[j].uid != u
      {
        assert samples[..m][j].uid in SampleUids(samples[..m]);
      }
    }
  }

  /** The file after an attempt that could not read it. */
  lemma AfterFailedRead<D, R>(a: Attempt<D, R>, saved: seq<Analysis<R>>, freq: nat)
    requires freq > 0 && !a.readable && a.samples != []
    ensures var n := |a.samples|; var after := Entries(After(a, Some(saved), freq));
            && (a.budget > StepsFor(n, freq) ==> Uids(after) == SampleUids(a.samples))
            && (a.budget <= freq && a.budget <= StepsFor(n, freq) ==> after == saved)
            && (freq < a.budget <= StepsFor(n, freq) ==>
                  Kept(a.budget, freq) <= n && Uids(after) == SampleUids(a.samples[..Kept(a.budget, freq)]))
  {
    var none: seq<Analysis<R>> := [];
    assert Uids(none) == {};
    RemainingOfUndone(a.samples, {});
    assert a.samples[..|a.samples|] == a.samples;
    ScoredUids(a.samples, a.score);
    assert none + Scored(a.samples, a.score) == Scored(a.samples, a.score);
    NothingKept(a.budget, freq);
    if freq < a.budget <= StepsFor(|a.samples|, freq) {
      KeptAtLeast(a.budget, freq);
      KeptWithin(a.budget, freq, |a.samples|);
      var first := a.samples[..Kept(a.budget, freq)];
      ScoredUids(first, a.score);
      assert none + Scored(first, a.score) == Scored(first, a.score);
    }
  }

  /** After a failed read the attempt starts over, and its first save replaces the file. A saved uid is lost exactly when the
      kill comes after that save, before the end, and before the new scores reach every sample the file held. */
  lemma FailedReadLosesIff<D, R>(a: Attempt<D, R>, saved: seq<Analysis<R>>, freq: nat)
    requires freq > 0 && !a.readable && DistinctSamples(a.samples) && Uids(saved) <= SampleUids(a.samples)
    ensures LosesUid(saved, Entries(After(a, Some(saved), freq)))
            <==> freq < a.budget <= StepsFor(|a.samples|, freq) && HasLater(a.samples, Kept(a.budget, freq), saved)
  {
    if a.samples != [] {
      AfterFailedRead(a, saved, freq);
      if freq < a.budget <= StepsFor(|a.samples|, freq) {
        HasLaterIff(a.samples, Kept(a.budget, freq), saved);
      }
    }
  }

  /** For the file an earlier attempt on the same samples left after k of them. */
  lemma FailedReadLosesEarlierScoresIff<D, R>(a: Attempt<D, R>, score: Sample<D> -> R, k: nat, freq: nat)
    requires freq > 0 && !a.readable && DistinctSamples(a.samples) && k <= |a.samples|
    ensures LosesUid(Scored(a.samples[..k], score), Entries(After(a, Some(Scored(a.samples[..k], score)), freq)))
            <==> freq < a.budget <= StepsFor(|a.samples|, freq) && Kept(a.budget, freq) < k
  {
    var first := a.samples[..k];
    var saved, m := Scored(first, score), Kept(a.budget, freq);
    ScoredUids(first, score);
    PrefixUids(a.samples, k);
    FailedReadLosesIff(a, saved, freq);
    if m < k {
      assert first[m].uid in SampleUids(first) && first[m] == a.samples[m];
    }
  }

  // ---------------------------------------------------------------------------------------------
  // Samples that share a uid
  // ---------------------------------------------------------------------------------------------

  /** The number of analyses of an evaluation that is killed once and then completed. */
  ghost function ResumedCount<D, R>(samples: seq<Sample<D>>, score: Sample<D> -> R, freq: nat, budget: nat): nat
    requires freq > 0
  {
    var partial := After(Attempt(samples, score, budget, true), None, freq);
    |Entries(After(Attempt(samples, score, StepsFor(|samples|, freq) + 1, true), partial, freq))|
  }

  lemma {:induction false} RemainingSkips<D>(samples: seq<Sample<D>>, done: set<string>, i: nat, j: nat)
    requires i < j < |samples| && samples[j].uid in done && forall k :: 0 <= k <= i ==> samples[k].uid in done
    ensures |Remaining(samples, done)| + i + 2 <= |samples|
  {
    if i > 0 {
      RemainingSkips(samples[1..], done, i - 1, j - 1);
    } else {
      var rest := samples[1..];
      assert rest == rest[..j - 1] + rest[j - 1..];
      RemainingAppend(rest[..j - 1], rest[j - 1..], done);
    }
  }

  /** Resuming yields one analysis per sample, wherever the evaluation is killed and however often it saves, exactly when no
      two samples share a uid. */
  lemma ResumingCountsAllIff<D, R>(samples: seq<Sample<D>>, score: Sample<D> -> R)
    ensures (forall freq, budget | freq > 0 :: ResumedCount(samples, score, freq, budget) == |samples|)
            <==> DistinctSamples(samples)
  {
    if DistinctSamples(samples) {
      forall freq, budget | freq > 0
        ensures ResumedCount(samples, score, freq, budget) == |samples|
      {
        DistinctSamplesCount(samples, score, freq, budget);
      }
    } else {
      var i, j :| 0 <= i < j < |samples| && samples[i].uid == samples[j].uid;
      SharedUidIsDropped(samples, score, i, j);
    }
  }

  lemma DistinctSamplesCount<D, R>(samples: seq<Sample<D>>, score: Sample<D> -> R, freq: nat, budget: nat)
    requires freq > 0 && DistinctSamples(samples)
    ensures ResumedCount(samples, score, freq, budget) == |samples|
  {
    var none: Option<seq<Analysis<R>>> := None;
    var first := Attempt(samples, score, budget, true);
    var partial := After(first, none, freq);
    var second := Attempt(samples, score, StepsFor(|samples|, freq) + 1, true);
    assert Uids(Entries(none)) == {};
    RemainingOfUndone(samples, {});
    AttemptAppends(first, none, freq);
    PrefixUids(samples, Added(first, none, freq));
    StepsAreMonotone(|Remaining(samples, Uids(Load(partial, true)))|, |samples|, freq);
    AttemptAppends(second, partial, freq);
    FinishedCoversAll(second, partial, freq);
    SameUidsSameCount(samples, Entries(After(second, partial, freq)));
  }

  /** Saving after every sample, and killed after i + 1 saves. */
  lemma SavedUpTo<D, R>(samples: seq<Sample<D>>, score: Sample<D> -> R, i: nat)
    requires i < |samples|
    ensures After(Attempt(samples, score, 2 * (i + 1), true), None, 1) == Some(Scored(samples[..i + 1], score))
  {
    var none: Option<seq<Analysis<R>>> := None;
    assert Uids(Load(none, true)) == {};
    RemainingOfUndone(samples, {});
    QuotientIsUnique(2 * (i + 1), 2, i + 1, 0);
    QuotientIsUnique(|samples|, 1, |samples|, 0);
    assert [] + Scored(samples[..i + 1], score) == Scored(samples[..i + 1], score);
  }

  lemma SharedUidIsDropped<D, R>(samples: seq<Sample<D>>, score: Sample<D> -> R, i: nat, j: nat)
    requires i < j < |samples| && samples[i].uid == samples[j].uid
    ensures ResumedCount(samples, score, 1, 2 * (i + 1)) < |samples|
  {
    var first := Scored(samples[..i + 1], score);
    var partial := Some(first);
    SavedUpTo(samples, score, i);
    ByUidUids(first);
    forall k | 0 <= k <= i
      ensures samples[k].uid in Uids(ByUid(first))
    {
      assert first[k].uid in Uids(first);
    }
    RemainingSkips(samples, Uids(ByUid(first)), i, j);
    var todo := Remaining(samples, Uids(Load(partial, true)));
    assert todo[..|todo|] == todo;
    StepsAreMonotone(|todo|, |samples|, 1);
    assert |Entries(After(Attempt(samples, score, StepsFor(|samples|, 1) + 1, true), partial, 1))| < |samples|;
  }
}
