/**
 * The two scripts together: a run log written by the benchmark runner,
 * read back by the labeling tool. A written line is read back as the
 * object it was written from (`json.loads(json.dumps(record))`).
 */
module Pipeline {

  import opened Wrappers
  import opened Json
  import opened Counters
  import opened Text
  import EvalLabel
  import opened EvalRun

  /** The objects a run log holds, one per record, in order. */
  function Rows(log: seq<RunRecord>): seq<Row>
  {
    seq(|log|, k requires 0 <= k < |log| => ToRow(log[k]))
  }

  /** The lines of a run log, each record dumped on a line of its own. */
  function Lines(log: seq<RunRecord>, dump: RunRecord -> string): seq<string>
  {
    seq(|log|, k requires 0 <= k < |log| => dump(log[k]))
  }

  /**
   * Reading a run log back: when each record is dumped as a JSON object
   * (it opens with `{`) on one line, with no line boundary of
   * `splitlines()` inside it, and parses back to the object it was dumped
   * from, then `read_text().splitlines()` gives the dumped lines again, no
   * line is dropped as blank, and the labeling tool's rows are the
   * records' objects, in the order they were written.
   */
  lemma ReadBack(log: seq<RunRecord>, dump: RunRecord -> string, parse: string -> Row)
    requires forall rec :: |dump(rec)| > 0 && dump(rec)[0] == '{'
    requires forall rec :: OneLine(dump(rec))
    requires forall rec :: parse(dump(rec)) == ToRow(rec)
    ensures EvalLabel.ParseRows(SplitLines(JoinLines(Lines(log, dump))), parse) == Rows(log)
  {
    var lines := Lines(log, dump);
    SplitJoin(lines);
    forall i | 0 <= i < |lines|
      ensures Strip(lines[i]) != ""
    {
      StripCutsSpaces(lines[i]);
      assert !IsSpace(lines[i][0]);
    }
    EvalLabel.NonBlankKeepsRecordLines(lines);
  }

  /**
   * The labeling tool skips a written record exactly when its answer label
   * is neither "" nor "unlabeled" and its retrieval label is neither "None"
   * nor "unlabeled".
   */
  lemma ToRowSkippedIff(r: RunRecord)
    ensures EvalLabel.AlreadyLabeled(ToRow(r)) <==>
              r.answerLabel !in {"", "unlabeled"} && r.retrievalLabel !in {"None", "unlabeled"}
  {
    ToRowFields(r);
  }

  /**
   * The display of a written record cannot raise: its expected answer is a
   * string and its retrieved entries are objects.
   */
  lemma ToRowDisplays(r: RunRecord)
    requires exists sources :: r.retrieved == Ranked(sources)
    ensures !EvalLabel.DisplayRaises(ToRow(r))
  {
    var sources :| r.retrieved == Ranked(sources);
    RankedEntries(sources);
    forall k | 0 <= k < |r.retrieved|
      ensures r.retrieved[k].Obj?
    {
      SourceEntryFields(k + 1, sources[k]);
    }
  }

  /** `n` equal values tally to a single entry holding `n`. */
  lemma {:induction false} TallyRepeated<K(!new)>(vs: seq<K>, v: K)
    requires forall i :: 0 <= i < |vs| ==> vs[i] == v
    ensures Tally(vs) == if vs == [] then [] else [(v, |vs|)]
  {
    if vs != [] {
      var init := vs[..|vs| - 1];
      TallyRepeated(init, v);
    }
  }

  /**
   * Every record of a benchmark run is still to be labeled and can be
   * shown: the labeling tool neither skips one nor fails displaying it.
   */
  lemma RunRowsPending(items: seq<Item>, setup: Setup)
    ensures forall k :: 0 <= k < |RunUpTo(items, |items|, setup).log| ==>
              var r := Rows(RunUpTo(items, |items|, setup).log)[k];
              !EvalLabel.AlreadyLabeled(r) && !EvalLabel.DisplayRaises(r)
  {
    var p := RunUpTo(items, |items|, setup);
    RunRecordsFor(items, |items|, setup);
    RecordsAreFresh(p.log, p.written, items, setup);
    forall k | 0 <= k < |p.log|
      ensures !EvalLabel.AlreadyLabeled(Rows(p.log)[k]) && !EvalLabel.DisplayRaises(Rows(p.log)[k])
    {
      var rec, pos := p.log[k], p.written[k];
      assert RecordFor(rec, items, pos, setup);
      var payload := setup.ask(pos, Strip(items[pos].query), setup.topK, setup.maxOutputTokens).value;
      assert rec.retrieved == Ranked(Sources(payload));
      ToRowSkippedIff(rec);
      ToRowDisplays(rec);
    }
  }

  /**
   * The label summary of a log whose records all carry the "unlabeled"
   * placeholders: "unlabeled" counted once per record, and nothing else.
   */
  lemma {:induction false} FreshLogSummary(log: seq<RunRecord>, key: string)
    requires key == "answer_label" || key == "retrieval_label"
    requires forall k :: 0 <= k < |log| ==> log[k].answerLabel == "unlabeled" && log[k].retrievalLabel == "unlabeled"
    ensures forall k :: 0 <= k < |log| ==> Hashable(EvalLabel.SummaryKey(Rows(log)[k], key))
    ensures Tally(EvalLabel.SummaryKeys(Rows(log), key)) == if log == [] then [] else [(Str("unlabeled"), |log|)]
  {
    var vs := EvalLabel.SummaryKeys(Rows(log), key);
    forall i | 0 <= i < |vs|
      ensures vs[i] == Str("unlabeled")
    {
      ToRowFields(log[i]);
    }
    TallyRepeated(vs, Str("unlabeled"));
  }

  /**
   * Summarising the log of a benchmark run succeeds and reports every
   * record as "unlabeled", for answers and retrievals alike.
   */
  method SummariseRun(items: seq<Item>, setup: Setup, key: string) returns (c: Option<Counter<Value>>)
    requires key == "answer_label" || key == "retrieval_label"
    ensures var n := |RunUpTo(items, |items|, setup).log|;
            c == Some(if n == 0 then [] else [(Str("unlabeled"), n)])
  {
    var p := RunUpTo(items, |items|, setup);
    RunRecordsFor(items, |items|, setup);
    RecordsAreFresh(p.log, p.written, items, setup);
    FreshLogSummary(p.log, key);
    c := EvalLabel.Count(Rows(p.log), key);
  }
}
