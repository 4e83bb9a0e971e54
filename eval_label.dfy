/**
 * The interactive labeling tool (scripts/eval_label.py): picking the input
 * run log, the single-line preview, the closed-choice prompt, the skip
 * test for records that already carry labels, the labeling session over
 * the input rows, and the frequency summary over the labeled log.
 */
module EvalLabel {

  import opened Wrappers
  import opened Json
  import opened Text
  import opened Counters

  const AnswerLabels: seq<string> := ["correct", "partial", "wrong", "oos"]
  const RetrievalLabels: seq<string> := ["ok", "bad"]
  const FailureBuckets: seq<string> := [
    "retrieval_miss",
    "chunking_issue",
    "grounding_failure",
    "instruction_following",
    "ambiguity_handling",
    "formatting",
    "other"
  ]

  /** The five fields a labeling writes into a record. */
  const LabelFields: set<string> :=
    {"answer_label", "retrieval_label", "failure_bucket", "label_notes", "labeled_at"}

  // ---------------------------------------------------------------------
  // Choosing the input log

  /** A `*.jsonl` file of the run-log directory and its modification time. */
  datatype RunFile = RunFile(path: string, mtime: real)

  /** `FileNotFoundError`: the run-log directory holds no `.jsonl` file. */
  datatype NotFound = NoJsonlFiles

  /**
   * Position of the entry a stable sort by descending mtime puts first:
   * the newest file, and among equally new files the one listed first.
   */
  function NewestIndex(files: seq<RunFile>): (k: nat)
    requires files != []
    ensures k < |files|
    ensures forall j :: 0 <= j < |files| ==> files[j].mtime <= files[k].mtime
    ensures forall j :: 0 <= j < k ==> files[j].mtime < files[k].mtime
  {
    if |files| == 1 then 0
    else
      var k := NewestIndex(files[1..]) + 1;
      if files[0].mtime >= files[k].mtime then 0 else k
  }

  /** `_latest_jsonl`: the most recently modified run log, or NotFound. */
  function LatestJsonl(files: seq<RunFile>): (r: Result<RunFile, NotFound>)
    ensures r.Failure? <==> files == []
    ensures r.Success? ==> r.value in files
    ensures r.Success? ==> forall f :: f in files ==> f.mtime <= r.value.mtime
  {
    if files == [] then Failure(NoJsonlFiles) else Success(files[NewestIndex(files)])
  }

  // ---------------------------------------------------------------------
  // Reading the input log

  /** `[x for x in lines if x.strip()]` */
  function NonBlank(lines: seq<string>): (r: seq<string>)
    ensures |r| <= |lines|
    ensures forall i :: 0 <= i < |r| ==> Strip(r[i]) != "" && r[i] in lines
  {
    if lines == [] then []
    else (if Strip(lines[0]) != "" then [lines[0]] else []) + NonBlank(lines[1..])
  }

  lemma {:induction false} NonBlankConcat(a: seq<string>, b: seq<string>)
    ensures NonBlank(a + b) == NonBlank(a) + NonBlank(b)
  {
    if a == [] {
      assert a + b == b;
    } else {
      assert (a + b)[1..] == a[1..] + b;
      NonBlankConcat(a[1..], b);
    }
  }

  /** Reading back lines that are all non-blank loses none of them. */
  lemma {:induction false} NonBlankKeepsRecordLines(lines: seq<string>)
    requires forall i :: 0 <= i < |lines| ==> Strip(lines[i]) != ""
    ensures NonBlank(lines) == lines
  {
    if lines != [] {
      NonBlankKeepsRecordLines(lines[1..]);
    }
  }

  /**
   * `[json.loads(x) for x in lines if x.strip()]`, with `json.loads` given
   * as `parse`; blank lines are dropped before any row is indexed.
   */
  function ParseRows(lines: seq<string>, parse: string -> Row): seq<Row>
  {
    var kept := NonBlank(lines);
    seq(|kept|, i requires 0 <= i < |kept| => parse(kept[i]))
  }

  // ---------------------------------------------------------------------
  // Display preview

  /** `s[:n]` with Python's reading of a negative bound. */
  function SliceTo(s: string, n: int): (r: string)
    ensures |r| <= |s| && r == s[..|r|]
    ensures n >= 0 ==> |r| == if n <= |s| then n else |s|
    ensures n < 0 ==> |r| == if |s| + n >= 0 then |s| + n else 0
  {
    if n >= 0 then (if n <= |s| then s[..n] else s)
    else if |s| + n >= 0 then s[..|s| + n] else []
  }

  /** `(s or "").strip().replace("\n", " ")` */
  function Flatten(s: Option<string>): (t: string)
    ensures forall i :: 0 <= i < |t| ==> t[i] != '\n'
    ensures var u := Strip(if s.Some? then s.value else "");
            |t| == |u| && forall i :: 0 <= i < |u| ==> t[i] == (if u[i] == '\n' then ' ' else u[i])
  {
    ReplaceChar(Strip(if s.Some? then s.value else ""), '\n', ' ')
  }

  /** `_preview(s, n)`: a one-line preview of at most `n` characters plus "...". */
  function Preview(s: Option<string>, n: int): (r: string)
    ensures forall i :: 0 <= i < |r| ==> r[i] != '\n'
    ensures |Flatten(s)| <= n ==> r == Flatten(s)
    ensures |Flatten(s)| > n ==> r == SliceTo(Flatten(s), n) + "..."
    ensures n >= 0 ==> |r| <= n + 3
  {
    var t := Flatten(s);
    if |t| <= n then t else SliceTo(t, n) + "..."
  }


  // ---------------------------------------------------------------------
  // Operator input

  /** What `input().strip().lower()` makes of one typed line. */
  function Entered(line: string): string
  {
    Lower(Strip(line))
  }

  /**
   * The line a `_prompt_choice` that starts reading at line `from` accepts:
   * the first line from there on that, entered, is one of `choices`.
   * `|input|` when there is none, and `input()` raises EOFError.
   */
  function NextChoice(choices: seq<string>, input: seq<string>, from: nat): (k: nat)
    ensures k <= |input|
    ensures from <= |input| ==> from <= k
    decreases |input| - from
  {
    if from >= |input| then |input|
    else if Entered(input[from]) in choices then from
    else NextChoice(choices, input, from + 1)
  }

  /** Line `k` is valid, and every line from `from` up to it is not. */
  ghost predicate AcceptedAt(choices: seq<string>, input: seq<string>, from: nat, k: nat)
  {
    && from <= k < |input|
    && Entered(input[k]) in choices
    && forall j :: from <= j < k ==> Entered(input[j]) !in choices
  }

  /**
   * The prompt accepts the first valid line from `from` on; when it runs
   * out of input, no line from `from` on was valid.
   */
  lemma {:induction false} NextChoiceSpec(choices: seq<string>, input: seq<string>, from: nat)
    ensures NextChoice(choices, input, from) < |input| ==>
              AcceptedAt(choices, input, from, NextChoice(choices, input, from))
    ensures NextChoice(choices, input, from) == |input| ==>
              forall j :: from <= j < |input| ==> Entered(input[j]) !in choices
    decreases |input| - from
  {
    if from < |input| && Entered(input[from]) !in choices {
      NextChoiceSpec(choices, input, from + 1);
    }
  }

  /** Line `k` is the one the prompt accepts exactly when it is the first valid line from `from`. */
  lemma NextChoiceIff(choices: seq<string>, input: seq<string>, from: nat, k: nat)
    ensures NextChoice(choices, input, from) == k && k < |input| <==> AcceptedAt(choices, input, from, k)
  {
    NextChoiceSpec(choices, input, from);
  }

  /**
   * `_prompt_choice`: reads lines from the operator input, starting at line
   * `from`, until one of them, stripped and lower-cased, is in `choices`.
   * `next` is the line after the last one read; running out of lines is
   * `input()` raising EOFError (`None`). `default` only decorates the
   * prompt: an empty line is just another invalid answer.
   */
  method PromptChoice(choices: seq<string>, default: Option<string>, input: seq<string>, from: nat)
    returns (choice: Option<string>, next: nat)
    requires from <= |input|
    ensures choice.Some? <==> NextChoice(choices, input, from) < |input|
    ensures choice.Some? ==> next == NextChoice(choices, input, from) + 1 && choice.value == Entered(input[next - 1])
    ensures choice.None? ==> next == |input|
  {
    next := from;
    while next < |input|
      invariant from <= next <= |input|
      invariant NextChoice(choices, input, next) == NextChoice(choices, input, from)
    {
      var x := Entered(input[next]);
      next := next + 1;
      if x in choices {
        return Some(x), next;
      }
    }
    return None, next;
  }

  // ---------------------------------------------------------------------
  // The skip test and the labeling itself

  /**
   * The re-run guard: a row is skipped when its answer_label is not
   * None, "" or "unlabeled" and its retrieval_label is not the STRING
   * "None" nor "unlabeled" (an absent or null retrieval_label passes).
   */
  predicate AlreadyLabeled(r: Row)
  {
    Json.Get(r, "answer_label") !in {Null, Str(""), Str("unlabeled")} &&
    Json.Get(r, "retrieval_label") !in {Str("None"), Str("unlabeled")}
  }

  /**
   * The record display raises before the first prompt: `_preview` calls
   * `.strip()` on a truthy `expected_answer` that is not a string, and the
   * source listing slices a truthy `retrieved` and calls `.get` on each of
   * its first three entries, which only a list whose first three entries
   * are objects survives.
   */
  predicate DisplayRaises(r: Row)
  {
    var e := Json.Get(r, "expected_answer");
    var t := Json.Get(r, "retrieved");
    || (Truthy(e) && !e.Str?)
    || (Truthy(t) && !(t.Arr? && forall k :: 0 <= k < |t.items| && k < 3 ==> t.items[k].Obj?))
  }

  /** The lists the three closed prompts offer. */
  datatype Choices = Choices(answers: seq<string>, retrievals: seq<string>, buckets: seq<string>)

  /** The tool's own lists. */
  const Lists: Choices := Choices(AnswerLabels, RetrievalLabels, FailureBuckets)

  /**
   * No answer choice is "" or "unlabeled" and no retrieval choice is
   * "None" or "unlabeled", so a row labeled from the lists passes the
   * skip test.
   */
  predicate SkipSafe(c: Choices)
  {
    "" !in c.answers && "unlabeled" !in c.answers && "None" !in c.retrievals && "unlabeled" !in c.retrievals
  }

  /** The five assignments into the row dict `r`. */
  function Stamp(r: Row, answerLabel: string, retrievalLabel: string, bucket: string,
                 notes: string, labeledAt: string): Row
  {
    r["answer_label" := Str(answerLabel)]
     ["retrieval_label" := Str(retrievalLabel)]
     ["failure_bucket" := Str(bucket)]
     ["label_notes" := Str(notes)]
     ["labeled_at" := Str(labeledAt)]
  }

  /**
   * The stamped row has the keys of `r` and the five label fields, each
   * label field holding the string given for it and every other field
   * as it was.
   */
  lemma StampSpec(r: Row, answerLabel: string, retrievalLabel: string, bucket: string,
                  notes: string, labeledAt: string)
    ensures var o := Stamp(r, answerLabel, retrievalLabel, bucket, notes, labeledAt);
            && o.Keys == r.Keys + LabelFields
            && (forall k :: k in r && k !in LabelFields ==> o[k] == r[k])
            && o["answer_label"] == Str(answerLabel) && o["retrieval_label"] == Str(retrievalLabel)
            && o["failure_bucket"] == Str(bucket) && o["label_notes"] == Str(notes)
            && o["labeled_at"] == Str(labeledAt)
  {
  }

  /**
   * `o` is `r` with exactly the five label fields set: the three closed
   * choices from their lists, notes and time stamp as strings, every other
   * field as it was.
   */
  ghost predicate LabelingOf(c: Choices, o: Row, r: Row)
  {
    && o.Keys == r.Keys + LabelFields
    && (forall k :: k in r && k !in LabelFields ==> o[k] == r[k])
    && o["answer_label"].Str? && o["answer_label"].s in c.answers
    && o["retrieval_label"].Str? && o["retrieval_label"].s in c.retrievals
    && o["failure_bucket"].Str? && o["failure_bucket"].s in c.buckets
    && o["label_notes"].Str?
    && o["labeled_at"].Str?
  }

  /** Stamping choices from the lists makes a labeling. */
  lemma StampIsLabeling(c: Choices, r: Row, answerLabel: string, retrievalLabel: string, bucket: string,
                        notes: string, labeledAt: string)
    requires answerLabel in c.answers && retrievalLabel in c.retrievals && bucket in c.buckets
    ensures LabelingOf(c, Stamp(r, answerLabel, retrievalLabel, bucket, notes, labeledAt), r)
  {
    StampSpec(r, answerLabel, retrievalLabel, bucket, notes, labeledAt);
  }

  /** A labeled row is skipped by every later session: re-running is safe. */
  lemma LabelingIsSkipped(c: Choices, o: Row, r: Row)
    requires SkipSafe(c) && LabelingOf(c, o, r)
    ensures AlreadyLabeled(o)
  {
    assert o["answer_label"] != Str("") && o["answer_label"] != Str("unlabeled");
  }

  /**
   * One record's labeling as read from the operator input: the labeled
   * row, the line it started reading at, and the lines that answered the
   * three prompts; the notes are on the line after the failure bucket.
   */
  datatype Reading = Reading(row: Row, from: nat, answerAt: nat, retrievalAt: nat, bucketAt: nat)
  {
    /** The line the next record's prompts start reading at. */
    function Next(): nat
    {
      bucketAt + 2
    }
  }

  /**
   * The three `_prompt_choice` calls, `_prompt_free` (one stripped line)
   * and the five assignments for row `r`, reading from line `from`, with
   * `at` as the time stamp. `None` when the input runs out first.
   */
  function ReadLabels(c: Choices, r: Row, input: seq<string>, from: nat, at: string): (rd: Option<Reading>)
    ensures rd.Some? ==> rd.value.from == from && rd.value.Next() <= |input|
  {
    var a := NextChoice(c.answers, input, from);
    if a >= |input| then None
    else
      var b := NextChoice(c.retrievals, input, a + 1);
      if b >= |input| then None
      else
        var f := NextChoice(c.buckets, input, b + 1);
        if f + 1 >= |input| then None
        else
          var row := Stamp(r, Entered(input[a]), Entered(input[b]), Entered(input[f]), Strip(input[f + 1]), at);
          Some(Reading(row, from, a, b, f))
  }

  /**
   * Lines `a`, `b` and `f` answer the answer, retrieval and bucket prompts
   * begun at line `from`, and line `f + 1` is there for the notes.
   */
  ghost predicate LabelsAt(c: Choices, input: seq<string>, from: nat, a: nat, b: nat, f: nat)
  {
    && AcceptedAt(c.answers, input, from, a)
    && AcceptedAt(c.retrievals, input, a + 1, b)
    && AcceptedAt(c.buckets, input, b + 1, f)
    && f + 1 < |input|
  }

  /**
   * A reading takes its three labels from the lines that answer the three
   * prompts, its notes from the next line, stripped, and its time stamp
   * from `at`; the row is then a labeling of `r`.
   */
  lemma ReadLabelsSpec(c: Choices, r: Row, input: seq<string>, from: nat, at: string)
    ensures ReadLabels(c, r, input, from, at).Some? ==>
              var rd := ReadLabels(c, r, input, from, at).value;
              && LabelsAt(c, input, from, rd.answerAt, rd.retrievalAt, rd.bucketAt)
              && rd.row == Stamp(r, Entered(input[rd.answerAt]), Entered(input[rd.retrievalAt]),
                                 Entered(input[rd.bucketAt]), Strip(input[rd.bucketAt + 1]), at)
              && LabelingOf(c, rd.row, r)
  {
    var a := NextChoice(c.answers, input, from);
    NextChoiceSpec(c.answers, input, from);
    if a < |input| {
      var b := NextChoice(c.retrievals, input, a + 1);
      NextChoiceSpec(c.retrievals, input, a + 1);
      if b < |input| {
        var f := NextChoice(c.buckets, input, b + 1);
        NextChoiceSpec(c.buckets, input, b + 1);
        if f + 1 < |input| {
          var row := Stamp(r, Entered(input[a]), Entered(input[b]), Entered(input[f]), Strip(input[f + 1]), at);
          StampIsLabeling(c, r, Entered(input[a]), Entered(input[b]), Entered(input[f]), Strip(input[f + 1]), at);
          assert ReadLabels(c, r, input, from, at) == Some(Reading(row, from, a, b, f));
        }
      }
    }
  }

  /** There is no reading exactly when the rest of the input holds no answers to the four prompts. */
  lemma ReadLabelsNone(c: Choices, r: Row, input: seq<string>, from: nat, at: string)
    ensures ReadLabels(c, r, input, from, at).None? <==>
              forall a: nat, b: nat, f: nat :: !LabelsAt(c, input, from, a, b, f)
  {
    var rd := ReadLabels(c, r, input, from, at);
    if rd.Some? {
      ReadLabelsSpec(c, r, input, from, at);
      var v := rd.value;
      assert LabelsAt(c, input, from, v.answerAt, v.retrievalAt, v.bucketAt);
    }
    forall a: nat, b: nat, f: nat | LabelsAt(c, input, from, a, b, f)
      ensures rd.Some?
    {
      NextChoiceIff(c.answers, input, from, a);
      NextChoiceIff(c.retrievals, input, a + 1, b);
      NextChoiceIff(c.buckets, input, b + 1, f);
    }
  }

  /**
   * One record's prompts and assignments: three closed choices, the free
   * notes line, then the five fields set on `r`. `next` is the line after
   * the last one read; all of the input when it runs out first (EOFError).
   */
  method CollectLabels(c: Choices, r: Row, input: seq<string>, from: nat, labeledAt: string)
    returns (labeling: Option<Row>, next: nat)
    requires from <= |input|
    ensures ReadLabels(c, r, input, from, labeledAt).None? ==> labeling.None? && next == |input|
    ensures ReadLabels(c, r, input, from, labeledAt).Some? ==>
              var rd := ReadLabels(c, r, input, from, labeledAt).value;
              labeling == Some(rd.row) && next == rd.Next()
  {
    var ans, n1 := PromptChoice(c.answers, Some("partial"), input, from);
    if ans.None? {
      return None, n1;
    }
    var ret, n2 := PromptChoice(c.retrievals, Some("ok"), input, n1);
    if ret.None? {
      return None, n2;
    }
    var bucket, n3 := PromptChoice(c.buckets, Some("other"), input, n2);
    if bucket.None? || n3 == |input| {
      return None, |input|;
    }
    var notes := Strip(input[n3]);
    var row := Stamp(r, ans.value, ret.value, bucket.value, notes, labeledAt);
    labeling, next := Some(row), n3 + 1;
  }

  // ---------------------------------------------------------------------
  // The labeling session

  /** Python's `rows[i]` for `-n <= i < n`. */
  function PyIndex(i: int, n: nat): int
  {
    if i >= 0 then i else n + i
  }

  /**
   * How one record's labels are read: from the row, the input line to
   * start reading at and the number of labels so far, the reading, or
   * `None` when the input runs out first.
   */
  type Reader = (Row, nat, nat) -> Option<Reading>

  /** The tool's reader: the prompts of `ReadLabels`, the k-th label stamped `clock(k)`. */
  function Prompts(c: Choices, input: seq<string>, clock: nat -> string): Reader
  {
    (r: Row, from: nat, k: nat) => ReadLabels(c, r, input, from, clock(k))
  }

  /**
   * A reader shaped like the prompts: a reading starts at the line asked
   * for, ends within the `n` input lines, and its row is a labeling of the
   * record from the lists `c`.
   */
  ghost predicate Sound(read: Reader, c: Choices, n: nat)
  {
    forall r: Row, from: nat, k: nat {:trigger read(r, from, k)} ::
      read(r, from, k).Some? ==>
        && read(r, from, k).value.from == from
        && read(r, from, k).value.Next() <= n
        && LabelingOf(c, read(r, from, k).value.row, r)
  }

  /** The prompts are such a reader. */
  lemma PromptsSound(c: Choices, input: seq<string>, clock: nat -> string)
    ensures Sound(Prompts(c, input, clock), c, |input|)
  {
    forall r: Row, from: nat, k: nat
      ensures var rd := ReadLabels(c, r, input, from, clock(k));
              rd.Some? ==> rd.value.from == from && rd.value.Next() <= |input| && LabelingOf(c, rd.value.row, r)
    {
      ReadLabelsSpec(c, r, input, from, clock(k));
    }
  }

  /** A reading of the prompts: the labels come from the answering lines, stamped `clock(k)`. */
  lemma PromptsReading(c: Choices, input: seq<string>, clock: nat -> string, r: Row, k: nat, rd: Reading)
    requires Prompts(c, input, clock)(r, rd.from, k) == Some(rd)
    ensures LabelsAt(c, input, rd.from, rd.answerAt, rd.retrievalAt, rd.bucketAt)
    ensures rd.row == Stamp(r, Entered(input[rd.answerAt]), Entered(input[rd.retrievalAt]),
                            Entered(input[rd.bucketAt]), Strip(input[rd.bucketAt + 1]), clock(k))
  {
    ReadLabelsSpec(c, r, input, rd.from, clock(k));
  }

  /**
   * What a labeling session starts from: the choice lists, the rows of the
   * input log, `--start`, `--limit`, the rows the output log already
   * holds, the operator's input lines, and how a record's labels are read
   * from them.
   */
  datatype Setup = Setup(choices: Choices, rows: seq<Row>, start: int, limit: int, log: seq<Row>,
                         input: seq<string>, read: Reader)

  /** The session as the tool runs it: the operator answers the prompts, the k-th label is stamped `clock(k)`. */
  function Interactive(c: Choices, rows: seq<Row>, start: int, limit: int, log: seq<Row>,
                       input: seq<string>, clock: nat -> string): Setup
  {
    Setup(c, rows, start, limit, log, input, Prompts(c, input, clock))
  }

  /** A setup whose labelings all pass the skip test and whose reader is shaped like the prompts. */
  ghost predicate Valid(e: Setup)
  {
    SkipSafe(e.choices) && Sound(e.read, e.choices, |e.input|)
  }

  /** The prompts over skip-safe lists, the tool's own among them, make a valid setup. */
  lemma InteractiveValid(c: Choices, rows: seq<Row>, start: int, limit: int, log: seq<Row>, input: seq<string>,
                         clock: nat -> string)
    requires SkipSafe(c)
    ensures Valid(Interactive(c, rows, start, limit, log, input, clock))
  {
    PromptsSound(c, input, clock);
  }

  /** How a session ends: normally, on EOFError, on IndexError, or when the display raises. */
  datatype Outcome = Finished | EndOfInput | IndexOutOfRange | DisplayFailed

  /**
   * Where the labeling loop stands: the input rows as it has updated them
   * in place, the output log, the loop indices whose row it labeled and
   * the reading for each, the loop index it is at (or ended at), and how
   * it ended, once it has.
   */
  datatype Session = Session(rows: seq<Row>, log: seq<Row>, visited: seq<int>, readings: seq<Reading>,
                             stop: int, ended: Option<Outcome>)

  /** The line the next reading starts at. */
  function Cursor(readings: seq<Reading>): nat
  {
    if |readings| == 0 then 0 else readings[|readings| - 1].Next()
  }

  /**
   * One pass of the loop body at index `i`: the `labeled > limit` guard,
   * `rows[i]`, the skip test, the display, the prompts, the in-place
   * update and the append.
   */
  function SessionStep(e: Setup, s: Session, i: int): Session
    requires |s.rows| == |e.rows| && i < |e.rows|
  {
    if |s.readings| > e.limit then s.(ended := Some(Finished))
    else if i < -|e.rows| then s.(ended := Some(IndexOutOfRange))
    else
      var j := PyIndex(i, |e.rows|);
      var r := s.rows[j];
      if AlreadyLabeled(r) then s.(stop := i + 1)
      else if DisplayRaises(r) then s.(ended := Some(DisplayFailed))
      else match e.read(r, Cursor(s.readings), |s.readings|)
        case None => s.(ended := Some(EndOfInput))
        case Some(rd) => Session(s.rows[j := rd.row], s.log + [rd.row], s.visited + [i], s.readings + [rd], i + 1, None)
  }

  /**
   * The session after the loop `for i in range(start, len(rows))` has
   * handled the indices below `i`.
   */
  function SessionUpTo(e: Setup, i: int): (s: Session)
    requires e.start <= i && (i == e.start || i <= |e.rows|)
    ensures |s.rows| == |e.rows| && e.start <= s.stop <= i
    ensures s.ended.None? ==> s.stop == i
    decreases i - e.start
  {
    if i == e.start then Session(e.rows, e.log, [], [], e.start, None)
    else
      var s := SessionUpTo(e, i - 1);
      if s.ended.Some? then s else SessionStep(e, s, i - 1)
  }

  /** The loop index the session runs up to. */
  function LastIndex(e: Setup): int
  {
    if e.start < |e.rows| then |e.rows| else e.start
  }

  /** The whole session: the loop over every index of `range(start, len(rows))`. */
  function SessionOf(e: Setup): Session
  {
    SessionUpTo(e, LastIndex(e))
  }

  /** Once the loop has left, later indices change nothing. */
  lemma {:induction false} EndedIsFinal(e: Setup, i: int, m: int)
    requires e.start <= i <= m && (m == e.start || m <= |e.rows|)
    requires SessionUpTo(e, i).ended.Some?
    ensures SessionUpTo(e, m) == SessionUpTo(e, i)
    decreases m - i
  {
    if m > i {
      EndedIsFinal(e, i, m - 1);
    }
  }

  /** A session that has left the loop by index `i`, or has run through every index, is the whole session. */
  lemma SessionOfAt(e: Setup, i: int, s: Session)
    requires e.start <= i && (i == e.start || i <= |e.rows|)
    requires SessionUpTo(e, i) == s && (s.ended.Some? || i >= |e.rows|)
    ensures SessionOf(e) == s
  {
    if s.ended.Some? {
      EndedIsFinal(e, i, LastIndex(e));
    }
  }

  /**
   * `rd` is the k-th reading of a session, taken for the row at loop index
   * `i`: a valid Python index whose row was neither skipped nor made the
   * display raise, read from line `rd.from` as the k-th label.
   */
  ghost predicate ReadingOf(e: Setup, i: int, k: nat, rd: Reading)
  {
    && -|e.rows| <= i < |e.rows|
    && var r := e.rows[PyIndex(i, |e.rows|)];
       && !AlreadyLabeled(r) && !DisplayRaises(r)
       && e.read(r, rd.from, k) == Some(rd)
  }

  /** The labeled rows of the readings, in order. */
  function RowsOf(readings: seq<Reading>): (rows: seq<Row>)
    ensures |rows| == |readings|
  {
    if readings == [] then [] else RowsOf(readings[..|readings| - 1]) + [readings[|readings| - 1].row]
  }

  /** The k-th of those rows is the k-th reading's. */
  lemma {:induction false} RowsOfIndex(readings: seq<Reading>, k: nat)
    requires k < |readings|
    ensures RowsOf(readings)[k] == readings[k].row
    decreases |readings|
  {
    if k < |readings| - 1 {
      RowsOfIndex(readings[..|readings| - 1], k);
    }
  }

  /** Appending a reading appends its row. */
  lemma RowsOfSnoc(log: seq<Row>, readings: seq<Reading>, rd: Reading)
    ensures log + RowsOf(readings) + [rd.row] == log + RowsOf(readings + [rd])
  {
    assert (readings + [rd])[..|readings|] == readings;
  }

  /** The loop indices `visited` increase and lie in [lo, hi), so there are at most `hi - lo` of them. */
  ghost predicate Ascending(visited: seq<int>, lo: int, hi: int)
  {
    && lo + |visited| <= hi
    && (forall k :: 0 <= k < |visited| ==> lo <= visited[k] < hi)
    && (forall k, l :: 0 <= k < l < |visited| ==> visited[k] < visited[l])
  }

  lemma AscendingSnoc(visited: seq<int>, lo: int, i: int)
    requires Ascending(visited, lo, i) && lo <= i
    ensures Ascending(visited + [i], lo, i + 1)
  {
    var v := visited + [i];
    forall k, l | 0 <= k < l < |v|
      ensures v[k] < v[l]
    {
      assert v[k] == visited[k];
    }
  }

  /** The first reading starts at line 0 and each later one where the one before ended. */
  ghost predicate Chained(readings: seq<Reading>)
  {
    forall k {:trigger readings[k]} :: 0 <= k < |readings| ==> readings[k].from == if k == 0 then 0 else readings[k - 1].Next()
  }

  lemma ChainedSnoc(readings: seq<Reading>, rd: Reading)
    requires Chained(readings) && rd.from == Cursor(readings)
    ensures Chained(readings + [rd])
  {
    var rs := readings + [rd];
    forall k | 0 <= k < |rs|
      ensures rs[k].from == if k == 0 then 0 else rs[k - 1].Next()
    {
      if 0 < k {
        assert rs[k - 1] == readings[k - 1];
      }
    }
  }

  /**
   * The output log is the rows it held plus the rows of the readings; the
   * k-th reading was taken for the row at the k-th visited loop index, and
   * visited indices increase and lie in [start, stop).
   */
  ghost predicate AppendedFromInput(e: Setup, s: Session)
  {
    && s.log == e.log + RowsOf(s.readings) && |s.visited| == |s.readings|
    && Ascending(s.visited, e.start, s.stop)
    && (forall k {:trigger ReadingOf(e, s.visited[k], k, s.readings[k])} ::
          0 <= k < |s.readings| ==> ReadingOf(e, s.visited[k], k, s.readings[k]))
    && Chained(s.readings)
  }

  /**
   * The input rows as the loop has left them after the indices
   * [start, bound): changed rows are labelings of the original ones, every
   * row passed now passes the skip test, and for a non-negative start the
   * rows from `bound` on are untouched and every passed row that was not
   * labeled was skipped.
   */
  ghost predicate RowsAfter(e: Setup, rows: seq<Row>, bound: int, visited: seq<int>)
  {
    var n := |e.rows|;
    && |rows| == n
    && (forall j {:trigger LabelingOf(e.choices, rows[j], e.rows[j])} ::
          0 <= j < n && rows[j] != e.rows[j] ==> LabelingOf(e.choices, rows[j], e.rows[j]))
    && (bound <= e.start || (-n <= e.start && bound <= n))
    && (forall m {:trigger AlreadyLabeled(rows[PyIndex(m, n)])} ::
          e.start <= m < bound ==> -n <= m < n && AlreadyLabeled(rows[PyIndex(m, n)]))
    && (e.start >= 0 ==> forall j :: 0 <= j < n && bound <= j ==> rows[j] == e.rows[j])
    && (e.start >= 0 ==> forall m :: e.start <= m < bound && m !in visited ==> m < n && AlreadyLabeled(e.rows[m]))
  }

  /**
   * Why a session that has left the loop left it: past the limit; on a
   * start below `-len(rows)` before any label; or at a row that is not
   * skipped, when the display raises or the reader runs out of input.
   */
  ghost predicate EndedWhy(e: Setup, s: Session)
  {
    var n := |e.rows|;
    && (s.ended == Some(Finished) ==> |s.readings| > e.limit)
    && (s.ended == Some(IndexOutOfRange) ==> e.start < -n && 0 <= e.limit && s.stop == e.start && s.readings == [])
    && (s.ended == Some(DisplayFailed) || s.ended == Some(EndOfInput) ==>
          && |s.readings| <= e.limit && -n <= s.stop < n
          && !AlreadyLabeled(e.rows[PyIndex(s.stop, n)]))
    && (s.ended == Some(DisplayFailed) ==> DisplayRaises(e.rows[PyIndex(s.stop, n)]))
    && (s.ended == Some(EndOfInput) ==>
          && !DisplayRaises(e.rows[PyIndex(s.stop, n)])
          && e.read(e.rows[PyIndex(s.stop, n)], Cursor(s.readings), |s.readings|).None?)
  }

  /** What holds of the session at every index of the loop. */
  ghost predicate SessionInv(e: Setup, s: Session)
  {
    && AppendedFromInput(e, s)
    && RowsAfter(e, s.rows, s.stop, s.visited)
    && (|s.readings| == 0 || |s.readings| <= e.limit + 1)
    && Cursor(s.readings) <= |e.input|
    && EndedWhy(e, s)
  }

  /** Appending the reading of the row at loop index `i` extends the in-order correspondence. */
  lemma AppendStep(e: Setup, s: Session, i: int, rd: Reading)
    requires AppendedFromInput(e, s)
    requires s.stop == i && e.start <= i
    requires ReadingOf(e, i, |s.readings|, rd) && rd.from == Cursor(s.readings)
    ensures AppendedFromInput(e, Session(s.rows, s.log + [rd.row], s.visited + [i], s.readings + [rd], i + 1, None))
  {
    RowsOfSnoc(e.log, s.readings, rd);
    AscendingSnoc(s.visited, e.start, i);
    ChainedSnoc(s.readings, rd);
    ReadingsSnoc(e, s.visited, s.readings, i, rd);
  }

  /** The reading for loop index `i` extends the readings in step with the visited indices. */
  lemma ReadingsSnoc(e: Setup, visited: seq<int>, readings: seq<Reading>, i: int, rd: Reading)
    requires |visited| == |readings|
    requires forall k {:trigger ReadingOf(e, visited[k], k, readings[k])} ::
               0 <= k < |readings| ==> ReadingOf(e, visited[k], k, readings[k])
    requires ReadingOf(e, i, |readings|, rd)
    ensures forall k {:trigger ReadingOf(e, (visited + [i])[k], k, (readings + [rd])[k])} ::
              0 <= k < |readings| + 1 ==> ReadingOf(e, (visited + [i])[k], k, (readings + [rd])[k])
  {
    forall k | 0 <= k < |readings| + 1
      ensures ReadingOf(e, (visited + [i])[k], k, (readings + [rd])[k])
    {
      if k < |readings| {
        assert (visited + [i])[k] == visited[k] && (readings + [rd])[k] == readings[k];
      }
    }
  }

  /**
   * Writing the reading into the row in place keeps every changed row a
   * labeling of its original and makes the visited row pass the skip test.
   */
  lemma RowsLabelStep(e: Setup, rows: seq<Row>, i: int, visited: seq<int>, o: Row)
    requires SkipSafe(e.choices)
    requires RowsAfter(e, rows, i, visited)
    requires e.start <= i && -|e.rows| <= i < |e.rows|
    requires rows[PyIndex(i, |e.rows|)] == e.rows[PyIndex(i, |e.rows|)]
    requires LabelingOf(e.choices, o, e.rows[PyIndex(i, |e.rows|)])
    ensures RowsAfter(e, rows[PyIndex(i, |e.rows|) := o], i + 1, visited + [i])
  {
    var n, j := |e.rows|, PyIndex(i, |e.rows|);
    var rows' := rows[j := o];
    LabelingIsSkipped(e.choices, o, e.rows[j]);
    forall j' | 0 <= j' < n && rows'[j'] != e.rows[j']
      ensures LabelingOf(e.choices, rows'[j'], e.rows[j'])
    {
      if j' != j {
        assert rows'[j'] == rows[j'];
      }
    }
    forall m | e.start <= m < i + 1
      ensures -n <= m < n && AlreadyLabeled(rows'[PyIndex(m, n)])
    {
      if PyIndex(m, n) != j {
        assert rows'[PyIndex(m, n)] == rows[PyIndex(m, n)];
      }
    }
    if e.start >= 0 {
      assert j == i;
      forall j' | 0 <= j' < n && i + 1 <= j'
        ensures rows'[j'] == e.rows[j']
      {
        assert rows'[j'] == rows[j'];
      }
      forall m | e.start <= m < i + 1 && m !in visited + [i]
        ensures m < n && AlreadyLabeled(e.rows[m])
      {
        assert m !in visited && m < i;
      }
    }
  }

  /** A skipped row leaves the rows as they were. */
  lemma RowsSkipStep(e: Setup, rows: seq<Row>, i: int, visited: seq<int>)
    requires RowsAfter(e, rows, i, visited)
    requires e.start <= i && -|e.rows| <= i < |e.rows|
    requires AlreadyLabeled(rows[PyIndex(i, |e.rows|)])
    ensures RowsAfter(e, rows, i + 1, visited)
  {
    var n := |e.rows|;
    forall m | e.start <= m < i + 1
      ensures -n <= m < n && AlreadyLabeled(rows[PyIndex(m, n)])
    {
      if m < i {
        assert AlreadyLabeled(rows[PyIndex(m, n)]);
      }
    }
    if e.start >= 0 {
      assert rows[i] == e.rows[i];
      forall m | e.start <= m < i + 1 && m !in visited
        ensures m < n && AlreadyLabeled(e.rows[m])
      {
        if m < i {
          assert AlreadyLabeled(e.rows[m]);
        }
      }
    }
  }

  /** The loop leaves at the `labeled > limit` guard or on IndexError. */
  lemma StepLeaves(e: Setup, s: Session, i: int)
    requires SessionInv(e, s)
    requires |s.rows| == |e.rows| && s.ended.None? && s.stop == i && e.start <= i < |e.rows|
    requires |s.readings| > e.limit || i < -|e.rows|
    ensures SessionInv(e, SessionStep(e, s, i))
  {
    if |s.readings| <= e.limit {
      assert i == e.start;
      assert |s.visited| == 0;
      assert s.readings == [];
    }
  }

  /** A row that passes the skip test is passed over. */
  lemma StepSkips(e: Setup, s: Session, i: int)
    requires SessionInv(e, s)
    requires |s.rows| == |e.rows| && s.ended.None? && s.stop == i && e.start <= i < |e.rows|
    requires |s.readings| <= e.limit && -|e.rows| <= i
    requires AlreadyLabeled(s.rows[PyIndex(i, |e.rows|)])
    ensures SessionInv(e, SessionStep(e, s, i))
  {
    RowsSkipStep(e, s.rows, i, s.visited);
  }

  /** Any other row is the original one, unchanged so far. */
  lemma StepUntouched(e: Setup, s: Session, i: int)
    requires SkipSafe(e.choices)
    requires RowsAfter(e, s.rows, i, s.visited)
    requires -|e.rows| <= i < |e.rows|
    requires !AlreadyLabeled(s.rows[PyIndex(i, |e.rows|)])
    ensures s.rows[PyIndex(i, |e.rows|)] == e.rows[PyIndex(i, |e.rows|)]
  {
    var j := PyIndex(i, |e.rows|);
    if s.rows[j] != e.rows[j] {
      LabelingIsSkipped(e.choices, s.rows[j], e.rows[j]);
    }
  }

  /** The loop leaves when the display raises or the input runs out. */
  lemma StepFails(e: Setup, s: Session, i: int)
    requires SkipSafe(e.choices)
    requires SessionInv(e, s)
    requires |s.rows| == |e.rows| && s.ended.None? && s.stop == i && e.start <= i < |e.rows|
    requires |s.readings| <= e.limit && -|e.rows| <= i
    requires !AlreadyLabeled(s.rows[PyIndex(i, |e.rows|)])
    requires var r := s.rows[PyIndex(i, |e.rows|)];
             DisplayRaises(r) || e.read(r, Cursor(s.readings), |s.readings|).None?
    ensures SessionInv(e, SessionStep(e, s, i))
  {
    StepUntouched(e, s, i);
  }

  /** A row read from the input is written in place and appended. */
  lemma StepAppends(e: Setup, s: Session, i: int)
    requires Valid(e)
    requires SessionInv(e, s)
    requires |s.rows| == |e.rows| && s.ended.None? && s.stop == i && e.start <= i < |e.rows|
    requires |s.readings| <= e.limit && -|e.rows| <= i
    requires !AlreadyLabeled(s.rows[PyIndex(i, |e.rows|)])
    requires var r := s.rows[PyIndex(i, |e.rows|)];
             !DisplayRaises(r) && e.read(r, Cursor(s.readings), |s.readings|).Some?
    ensures SessionInv(e, SessionStep(e, s, i))
  {
    StepUntouched(e, s, i);
    var j := PyIndex(i, |e.rows|);
    var rd := e.read(s.rows[j], Cursor(s.readings), |s.readings|).value;
    assert SessionStep(e, s, i) == Session(s.rows[j := rd.row], s.log + [rd.row], s.visited + [i], s.readings + [rd], i + 1, None);
    AppendKeepsInv(e, s, i, rd);
  }

  /** Labeling the row at loop index `i` from reading `rd` keeps the session invariant. */
  lemma AppendKeepsInv(e: Setup, s: Session, i: int, rd: Reading)
    requires SkipSafe(e.choices) && SessionInv(e, s)
    requires s.stop == i && e.start <= i && -|e.rows| <= i < |e.rows| && |s.readings| <= e.limit
    requires s.rows[PyIndex(i, |e.rows|)] == e.rows[PyIndex(i, |e.rows|)]
    requires ReadingOf(e, i, |s.readings|, rd) && rd.from == Cursor(s.readings) && rd.Next() <= |e.input|
    requires LabelingOf(e.choices, rd.row, e.rows[PyIndex(i, |e.rows|)])
    ensures var j := PyIndex(i, |e.rows|);
            SessionInv(e, Session(s.rows[j := rd.row], s.log + [rd.row], s.visited + [i], s.readings + [rd], i + 1, None))
  {
    AppendStep(e, s, i, rd);
    RowsLabelStep(e, s.rows, i, s.visited, rd.row);
  }

  /** One pass of the loop body keeps the session invariant. */
  lemma StepKeepsInv(e: Setup, s: Session, i: int)
    requires Valid(e)
    requires SessionInv(e, s)
    requires |s.rows| == |e.rows| && s.ended.None? && s.stop == i && e.start <= i < |e.rows|
    ensures SessionInv(e, SessionStep(e, s, i))
  {
    if |s.readings| > e.limit || i < -|e.rows| {
      StepLeaves(e, s, i);
    } else {
      var r := s.rows[PyIndex(i, |e.rows|)];
      if AlreadyLabeled(r) {
        StepSkips(e, s, i);
      } else if DisplayRaises(r) || e.read(r, Cursor(s.readings), |s.readings|).None? {
        StepFails(e, s, i);
      } else {
        StepAppends(e, s, i);
      }
    }
  }

  /** The session invariant holds at every index of the loop. */
  lemma {:induction false} SessionInvariant(e: Setup, i: int)
    requires Valid(e)
    requires e.start <= i && (i == e.start || i <= |e.rows|)
    ensures SessionInv(e, SessionUpTo(e, i))
    decreases i - e.start
  {
    if i > e.start {
      SessionInvariant(e, i - 1);
      var s := SessionUpTo(e, i - 1);
      if s.ended.None? {
        StepKeepsInv(e, s, i - 1);
      }
    }
  }

  /**
   * What a session appends: the output log is only appended to, one row
   * per label, at most `limit + 1` of them. The k-th appended row is the
   * k-th reading, taken for the row at the k-th visited loop index, which
   * was neither skipped nor made the display raise; visited indices
   * increase and lie in [start, stop). The first reading starts at line
   * 0 and each later one where the one before ended.
   */
  lemma SessionLog(e: Setup)
    requires Valid(e)
    ensures var s := SessionOf(e);
            && s.log == e.log + RowsOf(s.readings) && |s.visited| == |s.readings|
            && (|s.readings| == 0 || |s.readings| <= e.limit + 1)
            && Cursor(s.readings) <= |e.input|
            && Ascending(s.visited, e.start, s.stop)
            && (forall k {:trigger ReadingOf(e, s.visited[k], k, s.readings[k])} ::
                  0 <= k < |s.readings| ==> ReadingOf(e, s.visited[k], k, s.readings[k]))
            && Chained(s.readings)
  {
    SessionInvariant(e, LastIndex(e));
  }

  /** Every row a session appends is skipped by any later session: re-running is safe. */
  lemma SessionRerunSafe(e: Setup)
    requires Valid(e)
    ensures var s := SessionOf(e);
            forall k :: |e.log| <= k < |s.log| ==> AlreadyLabeled(s.log[k])
  {
    SessionLog(e);
    var s := SessionOf(e);
    forall k | |e.log| <= k < |s.log|
      ensures AlreadyLabeled(s.log[k])
    {
      var rd := s.readings[k - |e.log|];
      assert ReadingOf(e, s.visited[k - |e.log|], k - |e.log|, rd);
      RowsOfIndex(s.readings, k - |e.log|);
      var r := e.rows[PyIndex(s.visited[k - |e.log|], |e.rows|)];
      assert e.read(r, rd.from, k - |e.log|).Some? && s.log[k] == rd.row;
      LabelingIsSkipped(e.choices, rd.row, r);
    }
  }

  /**
   * What a session leaves in the input rows: changed rows are labelings of
   * the original ones and every row the loop passed now passes the skip
   * test; for a non-negative start, rows from `stop` on are untouched and
   * every passed row that was not labeled was already skipped.
   */
  lemma SessionRows(e: Setup)
    requires Valid(e)
    ensures var s := SessionOf(e);
            var n := |e.rows|;
            && |s.rows| == n
            && (forall j {:trigger LabelingOf(e.choices, s.rows[j], e.rows[j])} ::
                  0 <= j < n && s.rows[j] != e.rows[j] ==> LabelingOf(e.choices, s.rows[j], e.rows[j]))
            && (forall m {:trigger AlreadyLabeled(s.rows[PyIndex(m, n)])} ::
                  e.start <= m < s.stop ==> -n <= m < n && AlreadyLabeled(s.rows[PyIndex(m, n)]))
            && (e.start >= 0 ==> forall j :: 0 <= j < n && s.stop <= j ==> s.rows[j] == e.rows[j])
            && (e.start >= 0 ==> forall m :: e.start <= m < s.stop && m !in s.visited ==> m < n && AlreadyLabeled(e.rows[m]))
  {
    SessionInvariant(e, LastIndex(e));
  }

  /**
   * Why a session ends: it runs through every index, or stops at the
   * `labeled > limit` guard; it ends on EOFError with at most `limit`
   * labels, at a row that is not skipped, when the reader finds no
   * answers in the rest of the input; on IndexError exactly when
   * `start < -len(rows)` and `limit >= 0`, having appended nothing; or when
   * the display raises, at a row that is not skipped.
   */
  lemma SessionEnds(e: Setup)
    requires Valid(e)
    ensures var s := SessionOf(e);
            var n := |e.rows|;
            && (s.ended.None? ==> s.stop == LastIndex(e))
            && (s.ended == Some(Finished) ==> |s.readings| > e.limit)
            && (s.ended == Some(IndexOutOfRange) <==> e.start < -n && 0 <= e.limit)
            && (s.ended == Some(IndexOutOfRange) ==> s.log == e.log)
            && (s.ended == Some(DisplayFailed) || s.ended == Some(EndOfInput) ==>
                  && |s.readings| <= e.limit && -n <= s.stop < n
                  && !AlreadyLabeled(e.rows[PyIndex(s.stop, n)]))
            && (s.ended == Some(DisplayFailed) ==> DisplayRaises(e.rows[PyIndex(s.stop, n)]))
            && (s.ended == Some(EndOfInput) ==>
                  && !DisplayRaises(e.rows[PyIndex(s.stop, n)])
                  && e.read(e.rows[PyIndex(s.stop, n)], Cursor(s.readings), |s.readings|).None?)
  {
    var n := |e.rows|;
    SessionInvariant(e, LastIndex(e));
    if e.start < -n && 0 <= e.limit {
      assert SessionUpTo(e, e.start + 1).ended == Some(IndexOutOfRange);
      EndedIsFinal(e, e.start + 1, LastIndex(e));
    }
  }

  /** The k-th appended row is the k-th reading, read for the row at the k-th visited index. */
  lemma SessionReading(e: Setup, k: nat)
    requires Valid(e) && k < |SessionOf(e).readings|
    ensures var s := SessionOf(e);
            && |s.visited| == |s.readings| && |s.log| == |e.log| + |s.readings|
            && -|e.rows| <= s.visited[k] < |e.rows|
            && s.log[|e.log| + k] == s.readings[k].row
            && e.read(e.rows[PyIndex(s.visited[k], |e.rows|)], s.readings[k].from, k) == Some(s.readings[k])
  {
    SessionInvariant(e, LastIndex(e));
    AppendedReading(e, SessionOf(e), k);
  }

  /** The k-th reading of a session state, as the invariant records it. */
  lemma AppendedReading(e: Setup, s: Session, k: nat)
    requires AppendedFromInput(e, s) && k < |s.readings|
    ensures |s.visited| == |s.readings| && |s.log| == |e.log| + |s.readings|
    ensures -|e.rows| <= s.visited[k] < |e.rows|
    ensures s.log[|e.log| + k] == s.readings[k].row
    ensures e.read(e.rows[PyIndex(s.visited[k], |e.rows|)], s.readings[k].from, k) == Some(s.readings[k])
  {
    assert ReadingOf(e, s.visited[k], k, s.readings[k]);
    RowsOfIndex(s.readings, k);
  }

  /**
   * What the operator typed ends up in the log: the k-th row the tool
   * appends is the row at the k-th visited index with its three labels
   * taken from the lines that answer the prompts, its notes from the next
   * line, stripped, and `clock(k)` as its time stamp.
   */
  lemma SessionLabels(c: Choices, rows: seq<Row>, start: int, limit: int, log: seq<Row>, input: seq<string>,
                      clock: nat -> string, k: nat)
    requires SkipSafe(c)
    requires k < |SessionOf(Interactive(c, rows, start, limit, log, input, clock)).readings|
    ensures var s := SessionOf(Interactive(c, rows, start, limit, log, input, clock));
            var rd := s.readings[k];
            && |s.visited| == |s.readings| && |s.log| == |log| + |s.readings|
            && -|rows| <= s.visited[k] < |rows|
            && LabelsAt(c, input, rd.from, rd.answerAt, rd.retrievalAt, rd.bucketAt)
            && s.log[|log| + k] == Stamp(rows[PyIndex(s.visited[k], |rows|)],
                                         Entered(input[rd.answerAt]), Entered(input[rd.retrievalAt]),
                                         Entered(input[rd.bucketAt]), Strip(input[rd.bucketAt + 1]), clock(k))
  {
    var e := Interactive(c, rows, start, limit, log, input, clock);
    InteractiveValid(c, rows, start, limit, log, input, clock);
    SessionReading(e, k);
    var s := SessionOf(e);
    var rd := s.readings[k];
    PromptsReading(c, input, clock, rows[PyIndex(s.visited[k], |rows|)], k, rd);
  }

  /**
   * The tool stops on EOFError exactly at a row whose prompts find no
   * answers in the rest of the input.
   */
  lemma SessionEndOfInput(c: Choices, rows: seq<Row>, start: int, limit: int, log: seq<Row>, input: seq<string>,
                          clock: nat -> string)
    requires SkipSafe(c)
    ensures var s := SessionOf(Interactive(c, rows, start, limit, log, input, clock));
            s.ended == Some(EndOfInput) ==>
              && -|rows| <= s.stop < |rows|
              && forall a: nat, b: nat, f: nat :: !LabelsAt(c, input, Cursor(s.readings), a, b, f)
  {
    var e := Interactive(c, rows, start, limit, log, input, clock);
    InteractiveValid(c, rows, start, limit, log, input, clock);
    SessionEnds(e);
    var s := SessionOf(e);
    if s.ended == Some(EndOfInput) {
      ReadLabelsNone(c, rows[PyIndex(s.stop, |rows|)], input, Cursor(s.readings), clock(|s.readings|));
    }
  }

  /**
   * The loop of `main` (`range(start, len(rows))` with the `labeled > limit`
   * guard) over the input rows, prompting from the lists `c` (the tool's
   * own are `Lists`) and appending to the output log `log`; `consumed`
   * counts the operator lines read.
   */
  method LabelSession(c: Choices, rows: seq<Row>, start: int, limit: int, log: seq<Row>, input: seq<string>,
                      clock: nat -> string)
    returns (log': seq<Row>, labeled: nat, consumed: nat, outcome: Outcome)
    ensures var s := SessionOf(Interactive(c, rows, start, limit, log, input, clock));
            && log' == s.log && labeled == |s.readings|
            && outcome == (if s.ended.Some? then s.ended.value else Finished)
            && consumed == (if outcome == EndOfInput then |input| else Cursor(s.readings))
  {
    ghost var e := Interactive(c, rows, start, limit, log, input, clock);
    var n := |rows|;
    var current := rows;
    log', labeled, consumed := log, 0, 0;
    ghost var visited: seq<int> := [];
    ghost var readings: seq<Reading> := [];
    var i := start;
    var ended: Option<Outcome> := None;
    ghost var upTo := start;
    while i < n && ended.None?
      invariant start <= i && (i == start || i <= n)
      invariant upTo == (if ended.None? then i else i + 1) && (upTo == start || upTo <= n)
      invariant SessionUpTo(e, upTo) == Session(current, log', visited, readings, i, ended)
      invariant labeled == |readings| && consumed == (if ended == Some(EndOfInput) then |input| else Cursor(readings))
      invariant consumed <= |input|
      decreases n - i, if ended.None? then 1 else 0
    {
      current, log', labeled, consumed, ended, visited, readings :=
        LabelStep(e, c, limit, input, clock, i, current, log', labeled, consumed, visited, readings);
      upTo := i + 1;
      if ended.None? {
        i := i + 1;
      }
    }
    SessionOfAt(e, upTo, Session(current, log', visited, readings, i, ended));
    outcome := if ended.Some? then ended.value else Finished;
  }

  /** One pass of the loop body of the labeling session at index `i`. */
  method LabelStep(ghost e: Setup, c: Choices, limit: int, input: seq<string>, clock: nat -> string, i: int,
                   rows: seq<Row>, log: seq<Row>, labeled: nat, consumed: nat,
                   ghost visited: seq<int>, ghost readings: seq<Reading>)
    returns (rows': seq<Row>, log': seq<Row>, labeled': nat, consumed': nat, ended: Option<Outcome>,
             ghost visited': seq<int>, ghost readings': seq<Reading>)
    requires e == Interactive(c, e.rows, e.start, limit, e.log, input, clock)
    requires e.start <= i < |e.rows|
    requires SessionUpTo(e, i) == Session(rows, log, visited, readings, i, None)
    requires labeled == |readings| && consumed == Cursor(readings) && consumed <= |input|
    ensures SessionUpTo(e, i + 1) == Session(rows', log', visited', readings', if ended.None? then i + 1 else i, ended)
    ensures labeled' == |readings'| && consumed' == (if ended == Some(EndOfInput) then |input| else Cursor(readings'))
    ensures consumed' <= |input|
  {
    var n := |rows|;
    rows', log', labeled', consumed', ended, visited', readings' := rows, log, labeled, consumed, None, visited, readings;
    if labeled > limit {
      ended := Some(Finished);
    } else if i < -n {
      ended := Some(IndexOutOfRange);
    } else {
      var j := PyIndex(i, n);
      var r := rows[j];
      if !AlreadyLabeled(r) {
        if DisplayRaises(r) {
          ended := Some(DisplayFailed);
        } else {
          var labeling, next := CollectLabels(c, r, input, consumed, clock(labeled));
          if labeling.None? {
            ended, consumed' := Some(EndOfInput), |input|;
          } else {
            ghost var rd := ReadLabels(c, r, input, consumed, clock(labeled)).value;
            rows', log', labeled', consumed' := rows[j := labeling.value], log + [labeling.value], labeled + 1, next;
            visited', readings' := visited + [i], readings + [rd];
          }
        }
      }
    }
  }

  // ---------------------------------------------------------------------
  // The summary over the output log

  /** `rr.get(key, "unlabeled") or "unlabeled"` */
  function SummaryKey(r: Row, key: string): (v: Value)
    ensures Truthy(v)
    ensures key in r && Truthy(r[key]) ==> v == r[key]
    ensures !(key in r && Truthy(r[key])) ==> v == Str("unlabeled")
  {
    var v := GetOr(r, key, Str("unlabeled"));
    if Truthy(v) then v else Str("unlabeled")
  }

  /** The values `_count(key)` counts, one per row, in row order. */
  function SummaryKeys(rows: seq<Row>, key: string): seq<Value>
  {
    seq(|rows|, i requires 0 <= i < |rows| => SummaryKey(rows[i], key))
  }

  /**
   * `_count(key)`: the frequency table of `key` over the rows, in
   * first-seen order. A truthy list or dict value cannot be a dict key
   * and makes it raise TypeError (`None`).
   */
  method Count(rows: seq<Row>, key: string) returns (c: Option<Counter<Value>>)
    ensures c.None? <==> exists i :: 0 <= i < |rows| && !Hashable(SummaryKey(rows[i], key))
    ensures c.Some? ==> c.value == Tally(SummaryKeys(rows, key))
  {
    var counts: Counter<Value> := [];
    ghost var keys := SummaryKeys(rows, key);
    var i := 0;
    while i < |rows|
      invariant i <= |rows|
      invariant counts == Tally(keys[..i])
      invariant forall j :: 0 <= j < i ==> Hashable(SummaryKey(rows[j], key))
    {
      var v := SummaryKey(rows[i], key);
      assert v == keys[i];
      if !Hashable(v) {
        assert !Hashable(SummaryKey(rows[i], key));
        return None;
      }
      assert keys[..i + 1] == keys[..i] + [v];
      TallySnoc(keys[..i], v);
      counts := Increment(counts, v);
      i := i + 1;
    }
    assert keys[..i] == keys;
    return Some(counts);
  }

  /** Every value the three `_count` calls count is hashable. */
  ghost predicate SummaryHashable(rows: seq<Row>)
  {
    forall i :: 0 <= i < |rows| ==>
      && Hashable(SummaryKey(rows[i], "answer_label"))
      && Hashable(SummaryKey(rows[i], "retrieval_label"))
      && Hashable(SummaryKey(rows[i], "failure_bucket"))
  }

  /** The three tables the tool prints at the end. */
  datatype Summary = Summary(answers: Counter<Value>, retrievals: Counter<Value>, buckets: Counter<Value>)

  /** Why a run of the tool stops without printing its summary. */
  datatype Failure = NoInputLog | InputExhausted | BadStart | DisplayError | UnhashableLabel

  /** The input log: `--in`, or else the newest run log, if there is one. */
  function InputLog(inArg: string, runFiles: seq<RunFile>): (r: Option<string>)
    ensures r.None? <==> inArg == "" && runFiles == []
    ensures inArg != "" ==> r == Some(inArg)
    ensures inArg == "" && r.Some? ==>
              exists f :: f in runFiles && f.path == r.value && forall g :: g in runFiles ==> g.mtime <= f.mtime
  {
    if inArg != "" then Some(inArg)
    else if runFiles == [] then None
    else Some(LatestJsonl(runFiles).value.path)
  }

  /** Output path used when `--out` is not given. */
  function OutPath(outArg: string, today: string): string
  {
    if outArg != "" then outArg else "data/logs/eval_runs_labeled/" + today + ".labeled.jsonl"
  }

  /** The session `main` runs over the rows of the input log read from `inPath`. */
  function MainSetup(inPath: string, read: string -> string, parse: string -> Row, start: int, limit: int,
                     outRows0: seq<Row>, input: seq<string>, clock: nat -> string): Setup
  {
    Interactive(Lists, ParseRows(SplitLines(read(inPath)), parse), start, limit, outRows0, input, clock)
  }

  /**
   * `main`: resolve the input log, parse its non-blank lines, choose the
   * output path, run the session appending to the rows the output log
   * already holds, then count the three label fields over the whole
   * output log. `read` gives the text of a file; `outPath` stays empty
   * when the tool stops before choosing it.
   */
  method LabelMain(inArg: string, runFiles: seq<RunFile>, read: string -> string,
                   parse: string -> Row, outArg: string, today: string, start: int, limit: int,
                   outRows0: seq<Row>, input: seq<string>, clock: nat -> string)
    returns (outPath: string, outRows: seq<Row>, summary: Result<Summary, Failure>)
    ensures outRows0 <= outRows
    ensures InputLog(inArg, runFiles).None? <==> summary == Failure(NoInputLog)
    ensures InputLog(inArg, runFiles).None? ==> outPath == "" && outRows == outRows0
    ensures InputLog(inArg, runFiles).Some? ==>
              var s := SessionOf(MainSetup(InputLog(inArg, runFiles).value, read, parse, start, limit,
                                           outRows0, input, clock));
              && outPath == OutPath(outArg, today)
              && outRows == s.log
              && (summary == Failure(InputExhausted) <==> s.ended == Some(EndOfInput))
              && (summary == Failure(BadStart) <==> s.ended == Some(IndexOutOfRange))
              && (summary == Failure(DisplayError) <==> s.ended == Some(DisplayFailed))
              && (summary.Success? <==> (s.ended.None? || s.ended == Some(Finished)) && SummaryHashable(s.log))
    ensures summary.Success? ==>
              && summary.value.answers == Tally(SummaryKeys(outRows, "answer_label"))
              && summary.value.retrievals == Tally(SummaryKeys(outRows, "retrieval_label"))
              && summary.value.buckets == Tally(SummaryKeys(outRows, "failure_bucket"))
    ensures summary.Success? ==>
              Total(summary.value.answers) == |outRows| && Total(summary.value.retrievals) == |outRows|
              && Total(summary.value.buckets) == |outRows|
  {
    var inPath := InputLog(inArg, runFiles);
    if inPath.None? {
      return "", outRows0, Failure(NoInputLog);
    }
    var rows := ParseRows(SplitLines(read(inPath.value)), parse);
    outPath := OutPath(outArg, today);
    var labeled, consumed, outcome;
    outRows, labeled, consumed, outcome := LabelSession(Lists, rows, start, limit, outRows0, input, clock);
    InteractiveValid(Lists, rows, start, limit, outRows0, input, clock);
    SessionLog(MainSetup(inPath.value, read, parse, start, limit, outRows0, input, clock));
    if outcome == EndOfInput {
      return outPath, outRows, Failure(InputExhausted);
    } else if outcome == IndexOutOfRange {
      return outPath, outRows, Failure(BadStart);
    } else if outcome == DisplayFailed {
      return outPath, outRows, Failure(DisplayError);
    }
    summary := Summarise(outRows);
  }

  /** The three `_count` calls and the summary they make. */
  method Summarise(outRows: seq<Row>) returns (summary: Result<Summary, Failure>)
    ensures summary.Success? || summary == Failure(UnhashableLabel)
    ensures summary.Success? <==> SummaryHashable(outRows)
    ensures summary.Success? ==>
              && summary.value.answers == Tally(SummaryKeys(outRows, "answer_label"))
              && summary.value.retrievals == Tally(SummaryKeys(outRows, "retrieval_label"))
              && summary.value.buckets == Tally(SummaryKeys(outRows, "failure_bucket"))
    ensures summary.Success? ==>
              Total(summary.value.answers) == |outRows| && Total(summary.value.retrievals) == |outRows|
              && Total(summary.value.buckets) == |outRows|
  {
    var answers := Count(outRows, "answer_label");
    var retrievals := Count(outRows, "retrieval_label");
    var buckets := Count(outRows, "failure_bucket");
    if answers.None? || retrievals.None? || buckets.None? {
      return Failure(UnhashableLabel);
    }
    TallyCounts(SummaryKeys(outRows, "answer_label"));
    TallyCounts(SummaryKeys(outRows, "retrieval_label"));
    TallyCounts(SummaryKeys(outRows, "failure_bucket"));
    summary := Success(Summary(answers.value, retrievals.value, buckets.value));
  }
}
