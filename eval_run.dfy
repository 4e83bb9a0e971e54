/**
 * The benchmark runner (scripts/eval_run.py): the fixed benchmark, the
 * run-log file name, normalising the sources `answer()` returns, the
 * record written per benchmark item and the two label counters.
 * `answer()`, the clock and the latency measurement are parameters.
 */
module EvalRun {

  import opened Wrappers
  import opened Json
  import opened Text
  import opened Counters

  /** A benchmark question: stable id, query, gold answer. */
  datatype Item = Item(id: string, query: string, expectedAnswer: string)

  /** `EVAL_ITEMS`, in benchmark order. */
  const EvalItems: seq<Item> := [Q1, Q2, Q3, Q4, Q5, Q6, Q7, Q8, Q9, Q10]

  const Q1 := Item(
      "q1_satellite_count_direct",
      "In the pre-flight check, how many satellites should the GPS lock on to?",
      "In the pre-flight check, the GPS should lock on to at least 10 satellites.")
  const Q2 := Item(
      "q2_satellite_count_paraphrased",
      "Is there a minumum number of satellites that the GPS should lock on to during pre-flight checks?",
      "Yes, in the pre-flight checks, the GPS should lock on to at least 10 satellites before takeoff.")
  const Q3 := Item(
      "q3_baterry_inspection_procedure",
      "How should the pilot inspect the battery during pre-flight checks?",
      "The pilot should verify that all flight batteries are physically intact, with no swelling, dents, or visible leakage; confirm battery voltage is within the recommended range (22.2\U{2013}25.0 V for a 6S pack); and ensure connectors are clean and firmly seated in the power distribution harness.")
  const Q4 := Item(
      "q4_home_point_vs_failsafe",
      "Should the pilot confirm whether the home point has been correctly recorded in the Ground Control Station during the failsafe tests?",
      "The pilot should confirm that the home point has been correctly recorded in the GCS during the GPS and home point pre-flight checks, which should happen before the failsafe tests")
  const Q5 := Item(
      "q5_definition_example_preflight",
      "What is a pre-flight check and give one example from our docs?",
      "Pre-flight checks are a list of things that a pilot should check before takeoff to ensure safe flight. For example, the pilot should verify that all flight batteries are intact, with no swellings, dents, or visible leakage as part of the battery inspection pre-flight checks.")
  const Q6 := Item(
      "q6_out_of_scope_cheetah_speed",
      "How fast can cheetahs run?",
      "Answer not in knowledge documents")
  const Q7 := Item(
      "q7_ambiguous_motor_vs_gps_order",
      "Should the motor test be done before or after the GPS checks?",
      "The motor test should be done after the pre-flight GPS checks")
  const Q8 := Item(
      "q8_list_preflight_checks",
      "What are the different types of pre-flight checks a pilot should do before flight?",
      "A pilot should do the following pre-flight checks before takeoff: battery inspection, GPS and home point lock, control surface and motor test, and failsafe behaviour")
  const Q9 := Item(
      "q9_shorthand_bat_inspect",
      "What happens in the bat inspec part of the pre-flight check?",
      "The pilot should verify that all flight batteries are physically intact, with no swelling, dents, or visible leakage; confirm battery voltage is within the recommended range (22.2-25.0 V for a 6S pack); and ensure connectors are clean and firmly seated in the power distribution harness")
  const Q10 := Item(
      "q10_tricky_negative_satellite_count",
      "Should the pilot proceed with takeoff if the GPS is locked on to 8 satellites?",
      "No, the pilot should wait until the GPS has locked on to at least 10 satellites before takeoff and ensure all other pre-flight checks are complete")

  // ---------------------------------------------------------------------
  // The run-log file name

  /** The characters `_get_log_path` removes from the run id. */
  predicate IsSeparator(c: char)
  {
    c == ':' || c == '-' || c == '.'
  }

  /** `run_id.replace(":", "").replace("-", "").replace(".", "")` */
  function SanitizeRunId(runId: string): (r: string)
    ensures forall i :: 0 <= i < |r| ==> !IsSeparator(r[i])
  {
    Delete(Delete(Delete(runId, ':'), '-'), '.')
  }

  /** Reference reading: one pass keeping every non-separator in order. */
  function KeepNonSeparators(s: string): string
  {
    if s == [] then [] else (if IsSeparator(s[0]) then [] else [s[0]]) + KeepNonSeparators(s[1..])
  }

  lemma SanitizeConcat(a: string, b: string)
    ensures SanitizeRunId(a + b) == SanitizeRunId(a) + SanitizeRunId(b)
  {
    DeleteConcat(a, b, ':');
    DeleteConcat(Delete(a, ':'), Delete(b, ':'), '-');
    DeleteConcat(Delete(Delete(a, ':'), '-'), Delete(Delete(b, ':'), '-'), '.');
  }

  /**
   * The three chained replacements drop exactly the separators and keep
   * every other character, in order.
   */
  lemma {:induction false} SanitizeKeepsOthersInOrder(s: string)
    ensures SanitizeRunId(s) == KeepNonSeparators(s)
  {
    if s != [] {
      assert s == [s[0]] + s[1..];
      SanitizeConcat([s[0]], s[1..]);
      SanitizeKeepsOthersInOrder(s[1..]);
      assert [s[0]][1..] == [];
    }
  }

  /** A run id without separators is kept as it is. */
  lemma SanitizeWithoutSeparators(s: string)
    requires forall i :: 0 <= i < |s| ==> !IsSeparator(s[i])
    ensures SanitizeRunId(s) == s
  {
    SanitizeKeepsOthersInOrder(s);
    KeepAll(s);
  }

  lemma {:induction false} KeepAll(s: string)
    requires forall i :: 0 <= i < |s| ==> !IsSeparator(s[i])
    ensures KeepNonSeparators(s) == s
  {
    if s != [] {
      KeepAll(s[1..]);
    }
  }

  const RunLogDir: string := "data/logs/eval_runs/"

  /** `_get_log_path`: `data/logs/eval_runs/<date>__<sanitised run id>.jsonl`. */
  function LogPath(today: string, runId: string): string
  {
    RunLogDir + today + "__" + SanitizeRunId(runId) + ".jsonl"
  }

  /** Two runs on the same day share a log file only if their sanitised ids agree. */
  lemma LogPathSeparatesRuns(today: string, a: string, b: string)
    requires SanitizeRunId(a) != SanitizeRunId(b)
    ensures LogPath(today, a) != LogPath(today, b)
  {
    var pre := RunLogDir + today + "__";
    var sa, sb := SanitizeRunId(a), SanitizeRunId(b);
    assert LogPath(today, a) == pre + sa + ".jsonl";
    assert LogPath(today, b) == pre + sb + ".jsonl";
    assert LogPath(today, a)[|pre|..|pre| + |sa|] == sa;
    assert LogPath(today, b)[|pre|..|pre| + |sb|] == sb;
  }

  // ---------------------------------------------------------------------
  // One record

  /**
   * What `answer()` returns: its "answer" value (`None` when the key is
   * absent) and its "sources" list of dicts (`None` when absent or null).
   */
  datatype Payload = Payload(answer: Option<Value>, sources: Option<seq<Row>>)

  /** `result.get("answer", "")` */
  function AnswerText(p: Payload): Value
  {
    if p.answer.Some? then p.answer.value else Str("")
  }

  /** `result.get("sources", []) or []` */
  function Sources(p: Payload): seq<Row>
  {
    if p.sources.Some? then p.sources.value else []
  }

  /** One entry of `retrieved_for_log`. */
  function SourceEntry(rank: int, src: Row): Value
  {
    Obj(map[
      "rank" := Int(rank),
      "source" := GetOr(src, "source", Str("unknown")),
      "score" := GetOr(src, "score", Null),
      "snippet" := GetOr(src, "snippet", Str(""))
    ])
  }

  const SourceFields: set<string> := {"rank", "source", "score", "snippet"}

  /** `retrieved_for_log` as a whole: one entry per source, in source order. */
  function Ranked(sources: seq<Row>): seq<Value>
  {
    if sources == [] then []
    else Ranked(sources[..|sources| - 1]) + [SourceEntry(|sources|, sources[|sources| - 1])]
  }

  /**
   * An entry carries exactly the four fields, and "unknown", null and ""
   * stand in for a missing source, score and snippet.
   */
  lemma SourceEntryFields(rank: int, src: Row)
    ensures SourceEntry(rank, src).Obj?
    ensures SourceEntry(rank, src).fields.Keys == SourceFields
    ensures SourceEntry(rank, src).fields["rank"] == Int(rank)
    ensures SourceEntry(rank, src).fields["source"] == (if "source" in src then src["source"] else Str("unknown"))
    ensures SourceEntry(rank, src).fields["score"] == (if "score" in src then src["score"] else Null)
    ensures SourceEntry(rank, src).fields["snippet"] == (if "snippet" in src then src["snippet"] else Str(""))
  {
  }

  /** The entries of `retrieved_for_log` are the sources in order, ranked from 1. */
  lemma {:induction false} RankedEntries(sources: seq<Row>)
    ensures |Ranked(sources)| == |sources|
    ensures forall i :: 0 <= i < |sources| ==> Ranked(sources)[i] == SourceEntry(i + 1, sources[i])
  {
    if sources != [] {
      var init := sources[..|sources| - 1];
      RankedEntries(init);
      forall i | 0 <= i < |init|
        ensures Ranked(sources)[i] == Ranked(init)[i] && sources[i] == init[i]
      {
      }
    }
  }

  /** The `enumerate(sources, start=1)` loop that builds `retrieved_for_log`. */
  method RetrievedForLog(sources: seq<Row>) returns (retrieved: seq<Value>)
    ensures retrieved == Ranked(sources)
  {
    retrieved := [];
    var rank := 1;
    while rank <= |sources|
      invariant 1 <= rank <= |sources| + 1
      invariant retrieved == Ranked(sources[..rank - 1])
    {
      assert sources[..rank] == sources[..rank - 1] + [sources[rank - 1]];
      retrieved := retrieved + [SourceEntry(rank, sources[rank - 1])];
      rank := rank + 1;
    }
    assert sources[..rank - 1] == sources;
  }

  /**
   * One line of a run log, field by field: the record `run_eval` writes
   * for one benchmark item.
   */
  datatype RunRecord = RunRecord(
    runDate: string, runId: string, evalId: string, index: nat, query: string,
    timestamp: string, topK: int, latency: real, answer: Value,
    expectedAnswer: string, retrieved: seq<Value>,
    answerLabel: string, retrievalLabel: string)

  /** The fields every run record carries. */
  const RecordFields: set<string> := {
    "run_date", "run_id", "eval_id", "index", "query", "timestamp", "top_k",
    "latency_s", "answer", "expected_answer", "retrieved", "answer_label", "retrieval_label"
  }

  /** The JSON object a record is written as. */
  function ToRow(r: RunRecord): Row
  {
    map[
      "run_date" := Str(r.runDate),
      "run_id" := Str(r.runId),
      "eval_id" := Str(r.evalId),
      "index" := Int(r.index),
      "query" := Str(r.query),
      "timestamp" := Str(r.timestamp),
      "top_k" := Int(r.topK),
      "latency_s" := Float(r.latency),
      "answer" := r.answer,
      "expected_answer" := Str(r.expectedAnswer),
      "retrieved" := Arr(r.retrieved),
      "answer_label" := Str(r.answerLabel),
      "retrieval_label" := Str(r.retrievalLabel)
    ]
  }

  /** A written record has exactly the record fields, its labels as strings. */
  lemma ToRowFields(r: RunRecord)
    ensures ToRow(r).Keys == RecordFields
    ensures Json.Get(ToRow(r), "answer_label") == Str(r.answerLabel)
    ensures Json.Get(ToRow(r), "retrieval_label") == Str(r.retrievalLabel)
  {
  }

  /**
   * The record of `run_eval` for item `item` at position `index`, asked as
   * `query` (its stripped query), with the placeholder "unlabeled" for
   * both labels.
   */
  function MakeRecord(runId: string, index: nat, item: Item, query: string, topK: int, latency: real,
                      answer: Value, retrieved: seq<Value>, runDate: string, timestamp: string): RunRecord
  {
    RunRecord(runDate, runId, item.id, index, query, timestamp, topK, latency, answer,
              item.expectedAnswer, retrieved, "unlabeled", "unlabeled")
  }

  // ---------------------------------------------------------------------
  // The run

  /** Positions below `m` of the items whose stripped query is non-empty, in order. */
  function Asked(items: seq<Item>, m: nat): seq<nat>
    requires m <= |items|
  {
    if m == 0 then []
    else Asked(items, m - 1) + (if Strip(items[m - 1].query) != "" then [m - 1] else [])
  }

  lemma {:induction false} AskedBelow(items: seq<Item>, m: nat)
    requires m <= |items|
    ensures forall k :: 0 <= k < |Asked(items, m)| ==> Asked(items, m)[k] < m
  {
    if m > 0 {
      AskedBelow(items, m - 1);
    }
  }

  /** The asked positions are strictly increasing. */
  lemma {:induction false} AskedIncreasing(items: seq<Item>, m: nat)
    requires m <= |items|
    ensures forall k, l :: 0 <= k < l < |Asked(items, m)| ==> Asked(items, m)[k] < Asked(items, m)[l]
  {
    if m > 0 {
      AskedIncreasing(items, m - 1);
      AskedBelow(items, m - 1);
    }
  }

  /** A position is asked exactly when its stripped query is non-empty. */
  lemma {:induction false} AskedExactly(items: seq<Item>, m: nat)
    requires m <= |items|
    ensures forall p :: 0 <= p < m ==> (p in Asked(items, m) <==> Strip(items[p].query) != "")
  {
    if m > 0 {
      AskedExactly(items, m - 1);
      AskedBelow(items, m - 1);
      var prev, last := Asked(items, m - 1), if Strip(items[m - 1].query) != "" then [m - 1] else [];
      assert Asked(items, m) == prev + last;
      forall p | 0 <= p < m
        ensures p in Asked(items, m) <==> Strip(items[p].query) != ""
      {
        assert p in Asked(items, m) <==> p in prev || p in last;
        if p == m - 1 {
          assert p !in prev;
        }
      }
    }
  }

  /**
   * What one run is given besides the items: the run id, the retrieval
   * depth and output budget passed to `answer()`, and, at each item
   * position, what `answer()` returns there (`None` when it raises) and
   * the clock readings. `answer()` is not assumed to give equal queries
   * equal results.
   */
  datatype Setup = Setup(runId: string, topK: int, maxOutputTokens: int,
                         ask: (nat, string, int, int) -> Option<Payload>,
                         runDate: nat -> string, timestamp: nat -> string, latency: nat -> real)

  /** What one benchmark item yields. */
  datatype ItemOutcome = Skipped | AnswerFailed | Written(record: RunRecord)

  /**
   * The loop body of `run_eval` for item `p`, up to the write: a blank
   * query is skipped, otherwise `answer()` gets the stripped query and its
   * result is shaped into the record.
   */
  function ItemResult(items: seq<Item>, p: nat, setup: Setup): ItemOutcome
    requires p < |items|
  {
    var query := Strip(items[p].query);
    if query == "" then Skipped
    else match setup.ask(p, query, setup.topK, setup.maxOutputTokens)
      case None => AnswerFailed
      case Some(payload) =>
        Written(MakeRecord(setup.runId, p, items[p], query, setup.topK, setup.latency(p), AnswerText(payload),
                           Ranked(Sources(payload)), setup.runDate(p), setup.timestamp(p)))
  }

  /**
   * Where a run stands: the records written so far, the item position of
   * each, and the position whose `answer()` raised, if one did.
   */
  datatype Progress = Progress(log: seq<RunRecord>, written: seq<nat>, failedAt: Option<nat>)

  /** The progress of `run_eval` after the first `m` items. */
  function RunUpTo(items: seq<Item>, m: nat, setup: Setup): Progress
    requires m <= |items|
  {
    if m == 0 then Progress([], [], None)
    else
      var before := RunUpTo(items, m - 1, setup);
      if before.failedAt.Some? then before
      else match ItemResult(items, m - 1, setup)
        case Skipped => before
        case AnswerFailed => before.(failedAt := Some(m - 1))
        case Written(rec) => Progress(before.log + [rec], before.written + [m - 1], None)
  }

  /** Once `answer()` has raised, later items change nothing. */
  lemma {:induction false} FailureIsFinal(items: seq<Item>, m: nat, n: nat, setup: Setup)
    requires m <= n <= |items|
    requires RunUpTo(items, m, setup).failedAt.Some?
    ensures RunUpTo(items, n, setup) == RunUpTo(items, m, setup)
  {
    if n > m {
      FailureIsFinal(items, m, n - 1, setup);
    }
  }

  /**
   * Which items a run writes, and in which order: with no failure, every
   * item whose stripped query is non-empty; after a failure at `f`, those
   * before `f`, and `f` is an item with a non-empty query whose
   * `answer()` raised. There is one position per record.
   */
  lemma {:induction false} RunWritesAsked(items: seq<Item>, m: nat, setup: Setup)
    requires m <= |items|
    ensures |RunUpTo(items, m, setup).log| == |RunUpTo(items, m, setup).written|
    ensures RunUpTo(items, m, setup).failedAt.None? ==> RunUpTo(items, m, setup).written == Asked(items, m)
    ensures RunUpTo(items, m, setup).failedAt.Some? ==>
              var f := RunUpTo(items, m, setup).failedAt.value;
              && f < m
              && RunUpTo(items, m, setup).written == Asked(items, f)
              && Strip(items[f].query) != ""
              && setup.ask(f, Strip(items[f].query), setup.topK, setup.maxOutputTokens).None?
  {
    if m > 0 {
      RunWritesAsked(items, m - 1, setup);
      var before := RunUpTo(items, m - 1, setup);
      if before.failedAt.None? {
        var query := Strip(items[m - 1].query);
        assert Asked(items, m) == before.written + (if query != "" then [m - 1] else []);
      }
    }
  }

  /** The record the run writes for position `p`. */
  ghost predicate RecordFor(rec: RunRecord, items: seq<Item>, p: nat, setup: Setup)
  {
    p < |items| && ItemResult(items, p, setup) == Written(rec)
  }

  /** Every record is the one written for the position listed beside it. */
  ghost predicate RecordsFor(log: seq<RunRecord>, written: seq<nat>, items: seq<Item>, setup: Setup)
  {
    && |log| == |written|
    && forall k :: 0 <= k < |log| ==> RecordFor(log[k], items, written[k], setup)
  }

  /** Appending the record of position `p` keeps log and positions matched. */
  lemma RecordsForSnoc(log: seq<RunRecord>, written: seq<nat>, rec: RunRecord, p: nat,
                       items: seq<Item>, setup: Setup)
    requires RecordsFor(log, written, items, setup) && RecordFor(rec, items, p, setup)
    ensures RecordsFor(log + [rec], written + [p], items, setup)
  {
    var log', written' := log + [rec], written + [p];
    forall k | 0 <= k < |log'|
      ensures RecordFor(log'[k], items, written'[k], setup)
    {
      if k < |log| {
        assert log'[k] == log[k] && written'[k] == written[k];
      }
    }
  }

  /** Each record of a run is the one its item yields. */
  lemma {:induction false} RunRecordsFor(items: seq<Item>, m: nat, setup: Setup)
    requires m <= |items|
    ensures RecordsFor(RunUpTo(items, m, setup).log, RunUpTo(items, m, setup).written, items, setup)
  {
    if m > 0 {
      RunRecordsFor(items, m - 1, setup);
      var before := RunUpTo(items, m - 1, setup);
      if before.failedAt.None? && ItemResult(items, m - 1, setup).Written? {
        RecordsForSnoc(before.log, before.written, ItemResult(items, m - 1, setup).record, m - 1, items, setup);
      }
    }
  }

  /**
   * What a record says on its face: its position, item id, stripped
   * non-empty query, run id and retrieval depth, both labels
   * "unlabeled".
   */
  ghost predicate FreshRecord(rec: RunRecord, items: seq<Item>, p: nat, setup: Setup)
  {
    && p < |items|
    && rec.index == p
    && rec.evalId == items[p].id
    && rec.query == Strip(items[p].query)
    && rec.query != ""
    && rec.runId == setup.runId
    && rec.topK == setup.topK
    && rec.answerLabel == "unlabeled"
    && rec.retrievalLabel == "unlabeled"
  }

  /** Every record of a run is fresh. */
  lemma RecordsAreFresh(log: seq<RunRecord>, written: seq<nat>, items: seq<Item>, setup: Setup)
    requires RecordsFor(log, written, items, setup)
    ensures forall k :: 0 <= k < |log| ==> FreshRecord(log[k], items, written[k], setup)
  {
    forall k | 0 <= k < |log|
      ensures FreshRecord(log[k], items, written[k], setup)
    {
      assert RecordFor(log[k], items, written[k], setup);
    }
  }

  /** One pass of the loop body of `run_eval`, up to the write. */
  method AskItem(items: seq<Item>, idx: nat, setup: Setup) returns (outcome: ItemOutcome)
    requires idx < |items|
    ensures outcome == ItemResult(items, idx, setup)
  {
    var item := items[idx];
    var query := Strip(item.query);
    if query == "" {
      return Skipped;
    }
    var result := setup.ask(idx, query, setup.topK, setup.maxOutputTokens);
    if result.None? {
      return AnswerFailed;
    }
    var retrieved := RetrievedForLog(Sources(result.value));
    var record := MakeRecord(setup.runId, idx, item, query, setup.topK, setup.latency(idx), AnswerText(result.value),
                             retrieved, setup.runDate(idx), setup.timestamp(idx));
    return Written(record);
  }

  const ZeroAnswerCounts: Counter<string> := [("correct", 0), ("partial", 0), ("wrong", 0), ("oos", 0)]
  const ZeroRetrievalCounts: Counter<string> := [("ok", 0), ("bad", 0)]

  /**
   * `answer_label_counts` after `n` records: the dict literal of `run_eval`
   * with `n` under "unlabeled".
   */
  function AnswerCountsAfter(n: nat): Counter<string>
  {
    ZeroAnswerCounts + [("unlabeled", n)]
  }

  /** `retrieval_label_counts` after `n` records. */
  function RetrievalCountsAfter(n: nat): Counter<string>
  {
    ZeroRetrievalCounts + [("unlabeled", n)]
  }

  lemma ZeroCountsOtherKeys()
    ensures forall i :: 0 <= i < |ZeroAnswerCounts| ==> ZeroAnswerCounts[i].1 == 0 && ZeroAnswerCounts[i].0 != "unlabeled"
    ensures forall i :: 0 <= i < |ZeroRetrievalCounts| ==> ZeroRetrievalCounts[i].1 == 0 && ZeroRetrievalCounts[i].0 != "unlabeled"
  {
  }

  /** Bumping "unlabeled" takes either counter from `n` records to `n + 1`. */
  lemma CountsStep(n: nat)
    ensures Increment(AnswerCountsAfter(n), "unlabeled") == AnswerCountsAfter(n + 1)
    ensures Increment(RetrievalCountsAfter(n), "unlabeled") == RetrievalCountsAfter(n + 1)
  {
    ZeroCountsOtherKeys();
    IncrementLast(ZeroAnswerCounts, "unlabeled", n);
    IncrementLast(ZeroRetrievalCounts, "unlabeled", n);
  }

  /** `answer_label_counts["unlabeled"] += 1` and the same for retrieval labels. */
  method BumpUnlabeled(answerCounts: Counter<string>, retrievalCounts: Counter<string>, ghost n: nat)
    returns (answerCounts': Counter<string>, retrievalCounts': Counter<string>)
    requires answerCounts == AnswerCountsAfter(n) && retrievalCounts == RetrievalCountsAfter(n)
    ensures answerCounts' == AnswerCountsAfter(n + 1) && retrievalCounts' == RetrievalCountsAfter(n + 1)
  {
    CountsStep(n);
    answerCounts' := Increment(answerCounts, "unlabeled");
    retrievalCounts' := Increment(retrievalCounts, "unlabeled");
  }

  /**
   * What the summary prints after `n` records: `n` under "unlabeled",
   * zero under every other label, `n` in total.
   */
  lemma CountsAfterRead(n: nat)
    ensures forall x :: Counters.Get(AnswerCountsAfter(n), x) == if x == "unlabeled" then n else 0
    ensures forall x :: Counters.Get(RetrievalCountsAfter(n), x) == if x == "unlabeled" then n else 0
    ensures Total(AnswerCountsAfter(n)) == n && Total(RetrievalCountsAfter(n)) == n
  {
    ZeroCountsOtherKeys();
    GetAfterZeroes(ZeroAnswerCounts, "unlabeled", n);
    GetAfterZeroes(ZeroRetrievalCounts, "unlabeled", n);
    TotalAfterZeroes(ZeroAnswerCounts, "unlabeled", n);
    TotalAfterZeroes(ZeroRetrievalCounts, "unlabeled", n);
  }

  /**
   * One pass of the loop body of `run_eval`: the item is asked, its record
   * appended and both counters bumped; `failed` when `answer()` raised.
   */
  method EvalItem(items: seq<Item>, idx: nat, setup: Setup, log: seq<RunRecord>, ghost written: seq<nat>,
                  answerCounts: Counter<string>, retrievalCounts: Counter<string>)
    returns (failed: bool, log': seq<RunRecord>, ghost written': seq<nat>,
             answerCounts': Counter<string>, retrievalCounts': Counter<string>)
    requires idx < |items| && RunUpTo(items, idx, setup) == Progress(log, written, None)
    requires answerCounts == AnswerCountsAfter(|log|) && retrievalCounts == RetrievalCountsAfter(|log|)
    ensures RunUpTo(items, idx + 1, setup) == Progress(log', written', if failed then Some(idx) else None)
    ensures answerCounts' == AnswerCountsAfter(|log'|) && retrievalCounts' == RetrievalCountsAfter(|log'|)
  {
    failed, log', written', answerCounts', retrievalCounts' := false, log, written, answerCounts, retrievalCounts;
    var outcome := AskItem(items, idx, setup);
    if outcome.AnswerFailed? {
      failed := true;
    } else if outcome.Written? {
      answerCounts', retrievalCounts' := BumpUnlabeled(answerCounts, retrievalCounts, |log|);
      log' := log + [outcome.record];
      written' := written + [idx];
    }
  }

  /**
   * `run_eval`: the records of `RunUpTo` over all items, written to a
   * freshly truncated log at `LogPath`, with both counters bumped under
   * "unlabeled" per record. A failed `answer()` ends the run with the
   * records so far written; `today` is the date the log is named after.
   */
  method RunEval(items: seq<Item>, today: string, setup: Setup)
    returns (path: string, log: seq<RunRecord>, answerCounts: Counter<string>, retrievalCounts: Counter<string>,
             failedAt: Option<nat>)
    ensures path == LogPath(today, setup.runId)
    ensures log == RunUpTo(items, |items|, setup).log
    ensures failedAt == RunUpTo(items, |items|, setup).failedAt
    ensures answerCounts == AnswerCountsAfter(|log|)
    ensures retrievalCounts == RetrievalCountsAfter(|log|)
  {
    path := LogPath(today, setup.runId);
    log, answerCounts, retrievalCounts, failedAt := [], AnswerCountsAfter(0), RetrievalCountsAfter(0), None;
    ghost var written: seq<nat> := [];
    var idx := 0;
    while idx < |items|
      invariant idx <= |items|
      invariant RunUpTo(items, idx, setup) == Progress(log, written, None)
      invariant answerCounts == AnswerCountsAfter(|log|) && retrievalCounts == RetrievalCountsAfter(|log|)
    {
      var failed;
      failed, log, written, answerCounts, retrievalCounts :=
        EvalItem(items, idx, setup, log, written, answerCounts, retrievalCounts);
      if failed {
        failedAt := Some(idx);
        FailureIsFinal(items, idx + 1, |items|, setup);
        return;
      }
      idx := idx + 1;
    }
  }



  /** When no query strips to nothing, every position is asked, in order. */
  lemma {:induction false} AskedAll(items: seq<Item>, m: nat)
    requires m <= |items|
    requires forall p :: 0 <= p < |items| ==> Strip(items[p].query) != ""
    ensures |Asked(items, m)| == m
    ensures forall k :: 0 <= k < m ==> Asked(items, m)[k] == k
  {
    if m > 0 {
      AskedAll(items, m - 1);
    }
  }

  /**
   * Over items whose queries neither start nor end with whitespace (so
   * are non-empty and already stripped), every item is asked: the records are those of the first items, in order,
   * each carrying its item's query as it stands, up to the item whose
   * `answer()` raised.
   */
  lemma TrimmedRecords(items: seq<Item>, setup: Setup)
    requires forall p :: 0 <= p < |items| ==> items[p].query != "" && !IsSpace(items[p].query[0]) && !IsSpace(items[p].query[|items[p].query| - 1])
    ensures var p := RunUpTo(items, |items|, setup);
            && (p.failedAt.None? ==> |p.log| == |items|)
            && (p.failedAt.Some? ==> p.failedAt.value < |items| && |p.log| == p.failedAt.value)
            && forall k :: 0 <= k < |p.log| ==>
                 && p.log[k].index == k && p.log[k].evalId == items[k].id
                 && p.log[k].query == items[k].query && p.log[k].topK == setup.topK
  {
    var n := |items|;
    var p := RunUpTo(items, n, setup);
    forall q | 0 <= q < n
      ensures Strip(items[q].query) == items[q].query
    {
      StripTrimmed(items[q].query);
    }
    RunWritesAsked(items, n, setup);
    RunRecordsFor(items, n, setup);
    RecordsAreFresh(p.log, p.written, items, setup);
    var bound := if p.failedAt.Some? then p.failedAt.value else n;
    AskedAll(items, bound);
    forall k | 0 <= k < |p.log|
      ensures p.log[k].index == k && p.log[k].evalId == items[k].id
      ensures p.log[k].query == items[k].query && p.log[k].topK == setup.topK
    {
      assert FreshRecord(p.log[k], items, p.written[k], setup);
      assert p.written[k] == k;
    }
  }

  /**
   * `main`: one run over the fixed benchmark with five retrieved chunks
   * and at most 400 output tokens.
   */
  method RunBenchmark(today: string, runId: string, ask: (nat, string, int, int) -> Option<Payload>,
                      runDate: nat -> string, timestamp: nat -> string, latency: nat -> real)
    returns (path: string, log: seq<RunRecord>, failedAt: Option<nat>)
    ensures path == LogPath(today, runId)
    ensures var setup := Setup(runId, 5, 400, ask, runDate, timestamp, latency);
            log == RunUpTo(EvalItems, |EvalItems|, setup).log && failedAt == RunUpTo(EvalItems, |EvalItems|, setup).failedAt
  {
    var answerCounts, retrievalCounts;
    path, log, answerCounts, retrievalCounts, failedAt :=
      RunEval(EvalItems, today, Setup(runId, 5, 400, ask, runDate, timestamp, latency));
  }
}
