/** The choice among the decisions on single sources and on the season: it looks at the two best
    only, and that is enough. */
module Choice {
  import opened Wrappers
  import opened Files
  import opened Sorting
  import opened Objective
  import opened Assign
  import opened Decision
  import Consistency

  lemma QualityOrder(a: Quality, b: Quality, c: Quality)
    ensures AtLeast(a, a) && (AtLeast(a, b) || AtLeast(b, a))
    ensures AtLeast(a, b) && AtLeast(b, c) ==> AtLeast(a, c)
    ensures AtLeast(a, b) && AtLeast(b, a) ==> a == b
  {
  }

  lemma PreferenceIsTotal()
    ensures TotalPreorder(Preferred)
  {
    forall x: Decision, y: Decision ensures Preferred(x, y) || Preferred(y, x) {
      QualityOrder(QualityOf(x), QualityOf(y), QualityOf(y));
    }
    forall x: Decision, y: Decision, z: Decision | Preferred(x, y) && Preferred(y, z) ensures Preferred(x, z) {
      QualityOrder(QualityOf(x), QualityOf(y), QualityOf(z));
    }
  }

  /** Two of the decisions made come from two evaluations. */
  lemma {:induction false} TwoEvaluations(evaluations: seq<Evaluation>, k: nat, l: nat) returns (i: nat, j: nat)
    requires k < l < |Decisions(evaluations)|
    ensures i < j < |evaluations|
    ensures evaluations[i] == Decided(Decisions(evaluations)[k]) && evaluations[j] == Decided(Decisions(evaluations)[l])
  {
    var n := |evaluations| - 1;
    var before := Decisions(evaluations[..n]);
    if l < |before| {
      i, j := TwoEvaluations(evaluations[..n], k, l);
    } else {
      i := OneEvaluation(evaluations[..n], k);
      j := n;
    }
  }

  lemma {:induction false} OneEvaluation(evaluations: seq<Evaluation>, k: nat) returns (i: nat)
    requires k < |Decisions(evaluations)|
    ensures i < |evaluations| && evaluations[i] == Decided(Decisions(evaluations)[k])
  {
    var n := |evaluations| - 1;
    if k < |Decisions(evaluations[..n])| {
      i := OneEvaluation(evaluations[..n], k);
    } else {
      i := n;
    }
  }

  /** A decision on a source carries one of its modes, and all its mappings name that source. */
  lemma SourceDecision(q: Request, s: Source, d: Decision)
    requires s in SortedSources(q) && SourceEvaluated(q, s) == Decided(d)
    ensures d.mode != Some(SeasonFromEpisodes) && d.mode != None
    ensures forall f :: f in d.mappings ==> f.sourceId == s.id
  {
    var p := SourceProblem(q, s);
    var mode := Consistency.SourceExplained(q, s, d);
    Consistency.SourceSettled(q, s, d);
    hide Decide, MappingsOf, SortedSources;
    JudgedMode(q, s, MappingsOf(p), d);
    var at, from := Consistency.MappingPairs(p);
    forall f | f in MappingsOf(p) ensures f.sourceId == s.id {
      var k :| 0 <= k < |MappingsOf(p)| && MappingsOf(p)[k] == f;
      assert Consistency.PairsUp(p, f, at[k], from[k]);
    }
  }

  lemma JudgedMode(q: Request, s: Source, mappings: seq<FileMapping>, d: Decision)
    requires JudgeSource(q, s, mappings) == Decided(d)
    ensures d.mode != Some(SeasonFromEpisodes) && d.mode != None && d.mappings == mappings
  {
    hide AllRequired, AllExact, AnyPrimary, MappedRequired, RequiredBytes, BaseEvidence, Selected, SourceIds, FailureReason;
  }

  lemma SeasonDecision(q: Request, sources: seq<Source>, d: Decision)
    requires SeasonEvaluated(q, sources) == Decided(d)
    ensures d.mode == Some(SeasonFromEpisodes)
  {
    hide EpisodeFiles, OutcomeOf, MappingsOf, AnyPrimary, MappedRequired, RequiredBytes, BaseEvidence, Selected, SourceIds;
  }

  /** Two decisions of one mode that map the same files map none. */
  lemma TiedDecisionsAreEmpty(q: Request, i: nat, j: nat, d: Decision, e: Decision)
    requires NoRepeats(Map(SourceKey, q.sources)) && i < j < |Evaluations(q, SortedSources(q))|
    requires Evaluations(q, SortedSources(q))[i] == Decided(d) && Evaluations(q, SortedSources(q))[j] == Decided(e)
    requires d.mode == e.mode && d.mappings == e.mappings
    ensures d.mappings == []
  {
    var sources := SortedSources(q);
    Consistency.SortedKeys(q);
    hide SortedSources, SourceEvaluated, SeasonEvaluated;
    assert i < |sources| && SourceEvaluated(q, sources[i]) == Decided(d);
    SourceDecision(q, sources[i], d);
    if j < |sources| {
      assert SourceEvaluated(q, sources[j]) == Decided(e);
      SourceDecision(q, sources[j], e);
      KeysDiffer(sources, i, j);
      FirstNames(d.mappings, sources[i].id);
      FirstNames(e.mappings, sources[j].id);
    } else {
      SeasonDecision(q, sources, e);
    }
  }

  lemma KeysDiffer(sources: seq<Source>, i: nat, j: nat)
    requires NoRepeats(Map(SourceKey, sources)) && i < j < |sources|
    ensures sources[i].id != sources[j].id
  {
    assert Map(SourceKey, sources)[i] != Map(SourceKey, sources)[j];
  }

  lemma FirstNames(mappings: seq<FileMapping>, id: SourceId)
    requires forall f :: f in mappings ==> f.sourceId == id
    ensures mappings != [] ==> mappings[0].sourceId == id
  {
  }

  /** The chosen decision is the first of the sorted ones, and the second does not dispute it. */
  lemma ChosenIsFirst(q: Request, evaluations: seq<Evaluation>)
    requires Conclude(q, evaluations).outcome == Match
    ensures var sorted := Sort(Decisions(evaluations), Preferred);
      && |sorted| > 0 && Conclude(q, evaluations) == sorted[0]
      && (|sorted| > 1 && QualityOf(sorted[0]) == QualityOf(sorted[1]) ==> sorted[0].mappings == sorted[1].mappings)
  {
    hide Decisions, Sort, BaseEvidence, RequiredBytes, QualityOf;
  }

  /** Decisions at two places of the sorted list come from two evaluations, in some order. */
  lemma TiedFromTwo(q: Request, evaluations: seq<Evaluation>, k: nat)
    requires evaluations == Evaluations(q, SortedSources(q)) && NoRepeats(Map(SourceKey, q.sources))
    requires 0 < k < |Sort(Decisions(evaluations), Preferred)|
    requires var sorted := Sort(Decisions(evaluations), Preferred);
      sorted[0].mode == sorted[k].mode && sorted[0].mappings == sorted[k].mappings
    ensures Sort(Decisions(evaluations), Preferred)[0].mappings == []
  {
    var choices := Decisions(evaluations);
    var sorted := Sort(choices, Preferred);
    hide Decisions, Sort, Evaluations, SortedSources, NoRepeats;
    var at := Rearrangement(choices, sorted);
    PlacesDiffer(at, k);
    if at[0] < at[k] {
      var i, j := TwoEvaluations(evaluations, at[0], at[k]);
      TiedDecisionsAreEmpty(q, i, j, sorted[0], sorted[k]);
    } else {
      var i, j := TwoEvaluations(evaluations, at[k], at[0]);
      TiedDecisionsAreEmpty(q, i, j, sorted[k], sorted[0]);
    }
  }

  lemma PlacesDiffer(at: seq<nat>, k: nat)
    requires NoRepeats(at) && 0 < k < |at|
    ensures at[0] != at[k]
  {
  }

  lemma SameQuality(d: Decision, e: Decision)
    requires QualityOf(d) == QualityOf(e)
    ensures |d.mappings| == |e.mappings| && d.mode == e.mode
  {
  }

  /** The quality of everything between two equals is that of the equals. */
  lemma TiesAreTogether(sorted: seq<Decision>, k: nat)
    requires SortedBy(sorted, Preferred) && 0 < k < |sorted| && QualityOf(sorted[0]) == QualityOf(sorted[k])
    ensures QualityOf(sorted[0]) == QualityOf(sorted[1])
  {
    assert Preferred(sorted[0], sorted[1]);
    assert k > 1 ==> Preferred(sorted[1], sorted[k]);
    QualityOrder(QualityOf(sorted[0]), QualityOf(sorted[1]), QualityOf(sorted[k]));
  }

  /** A match is a decision of best quality, and although only the two best are compared, no decision
      of the same quality maps differently. */
  lemma ChoiceIsUndisputed(q: Request, e: Decision)
    requires Evaluated(q).outcome == Match && NoRepeats(Map(SourceKey, q.sources))
    requires Decided(e) in Evaluations(q, SortedSources(q))
    ensures AtLeast(QualityOf(Evaluated(q)), QualityOf(e))
    ensures QualityOf(e) == QualityOf(Evaluated(q)) ==> e.mappings == Evaluated(q).mappings
  {
    hide *;
    var evaluations := Evaluations(q, SortedSources(q));
    var sorted := Sort(Decisions(evaluations), Preferred);
    ConcludesMatch(q);
    ChosenIsFirst(q, evaluations);
    var k := PlaceOf(evaluations, e);
    if k == 0 {
      QualityOrder(QualityOf(e), QualityOf(e), QualityOf(e));
    } else {
      FirstPreferred(sorted, k);
      if QualityOf(e) == QualityOf(sorted[0]) {
        TiesAreTogether(sorted, k);
        SameQuality(sorted[0], sorted[1]);
        SameQuality(sorted[0], e);
        TiedFromTwo(q, evaluations, 1);
      }
    }
  }

  /** Where a decision stands among the sorted ones. */
  lemma PlaceOf(evaluations: seq<Evaluation>, e: Decision) returns (k: nat)
    requires Decided(e) in evaluations
    ensures var sorted := Sort(Decisions(evaluations), Preferred);
      SortedBy(sorted, Preferred) && k < |sorted| && sorted[k] == e
  {
    hide *;
    var sorted := Sort(Decisions(evaluations), Preferred);
    PreferenceIsTotal();
    SortSorted(Decisions(evaluations), Preferred);
    DecidedIsChoice(evaluations, e);
    SameElements(sorted, Decisions(evaluations), e);
    k :| 0 <= k < |sorted| && sorted[k] == e;
  }

  lemma FirstPreferred(sorted: seq<Decision>, k: nat)
    requires SortedBy(sorted, Preferred) && 0 < k < |sorted|
    ensures AtLeast(QualityOf(sorted[0]), QualityOf(sorted[k]))
  {
    assert Preferred(sorted[0], sorted[k]);
  }

  lemma ConcludesMatch(q: Request)
    requires Evaluated(q).outcome == Match
    ensures Evaluated(q) == Conclude(q, Evaluations(q, SortedSources(q)))
  {
    hide InvalidManifest, Evaluations, RequiredBytes, InputOverBudget, SortedSources, BaseEvidence, Present, Conclude;
  }

  lemma {:induction false} DecidedIsChoice(evaluations: seq<Evaluation>, e: Decision)
    requires Decided(e) in evaluations
    ensures e in Decisions(evaluations)
  {
    var n := |evaluations| - 1;
    if evaluations[n] != Decided(e) {
      assert evaluations == evaluations[..n] + [evaluations[n]];
      DecidedIsChoice(evaluations[..n], e);
    }
  }
}
