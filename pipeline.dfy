/**
 * The import pipeline of main.rs: workers pop files from a shared queue,
 * trim and parse each line, and send the records the filter admits to a
 * consumer, which stores them and counts them.
 *
 * Like `process` and `ThreadContext`, the workers are generic in the record
 * type. Opening a file, parsing a line and the record type's `Filterable`
 * projection are given functions (`Inputs`). The workers run one after the
 * other and the consumer after them, which is one of the schedules the
 * threads allow.
 */
module Pipeline {
  import opened Wrappers
  import RecordFilter
  import opened Records
  import opened StorageTrait

  type Path = string

  /** One step of a file's line stream: a line, or a read error that is skipped past. */
  datatype LineRead = ReadError | Line(text: string)

  /** Opening a file: an error, or its whole line stream. */
  datatype Opened = OpenError | Lines(lines: seq<LineRead>)

  /**
   * What the pipeline is handed for a record type `U`: `stream_lines`, the
   * serde parse of a line into a `U`, and `U`'s `Filterable` projection.
   */
  datatype Inputs<!U> = Inputs(open: Path -> Opened, parse: string -> Option<U>, view: U -> RecordFilter.Facts)

  // ---------------------------------------------------------------------
  // The line trim: `trim_matches` with every character but the braces.

  predicate IsBrace(c: char) { c == '{' || c == '}' }

  predicate NoBrace(s: string) { forall i :: 0 <= i < |s| ==> !IsBrace(s[i]) }

  /** The index of the first brace at or after `i`, or the length when there is none. */
  function FirstBrace(s: string, i: nat): (k: nat)
    requires i <= |s|
    ensures i <= k <= |s|
    ensures forall j :: i <= j < k ==> !IsBrace(s[j])
    ensures k < |s| ==> IsBrace(s[k])
    decreases |s| - i
  {
    if i < |s| && !IsBrace(s[i]) then FirstBrace(s, i + 1) else i
  }

  /** The index just after the last brace in `s[i..e]`, or `i` when there is none. */
  function LastBraceEnd(s: string, i: nat, e: nat): (k: nat)
    requires i <= e <= |s|
    ensures i <= k <= e
    ensures forall j :: k <= j < e ==> !IsBrace(s[j])
    ensures k > i ==> IsBrace(s[k - 1])
    decreases e - i
  {
    if i < e && !IsBrace(s[e - 1]) then LastBraceEnd(s, i, e - 1) else e
  }

  /** The line trim of main.rs:229: what lies from the first brace to the last. */
  function TrimToBraces(s: string): (t: string)
    ensures t != [] ==> IsBrace(t[0]) && IsBrace(t[|t| - 1])
    ensures exists i :: 0 <= i <= |s| - |t| && NoBrace(s[..i]) && t == s[i..i + |t|] && NoBrace(s[i + |t|..])
  {
    var i := FirstBrace(s, 0);
    var e := LastBraceEnd(s, i, |s|);
    CutWitness(s, i, s[i..e]);
    s[i..e]
  }

  lemma CutWitness(s: string, i: nat, t: string)
    requires i + |t| <= |s| && t == s[i..i + |t|]
    requires forall j :: 0 <= j < i ==> !IsBrace(s[j])
    requires forall j :: i + |t| <= j < |s| ==> !IsBrace(s[j])
    ensures exists k :: 0 <= k <= |s| - |t| && NoBrace(s[..k]) && t == s[k..k + |t|] && NoBrace(s[k + |t|..])
  {
    var front, rest := s[..i], s[i + |t|..];
    forall j | 0 <= j < |front|
      ensures !IsBrace(front[j])
    {
      assert front[j] == s[j];
    }
    forall j | 0 <= j < |rest|
      ensures !IsBrace(rest[j])
    {
      assert rest[j] == s[i + |t| + j];
    }
    assert NoBrace(front) && NoBrace(rest);
  }

  /** Junk around a brace-delimited middle is removed, and the middle is kept exactly. */
  lemma TrimCharacterisation(p: string, m: string, q: string)
    requires NoBrace(p) && NoBrace(q)
    requires m != [] ==> IsBrace(m[0]) && IsBrace(m[|m| - 1])
    ensures TrimToBraces(p + m + q) == m
  {
    var s := p + m + q;
    assert forall j :: 0 <= j < |p| ==> s[j] == p[j];
    assert forall j :: |p| + |m| <= j < |s| ==> s[j] == q[j - |p| - |m|];
    var i := FirstBrace(s, 0);
    if m == [] {
      assert i == |s|;
      assert s[i..LastBraceEnd(s, i, |s|)] == [];
    } else {
      assert s[|p|] == m[0];
      assert i == |p|;
      assert s[|p| + |m| - 1] == m[|m| - 1];
      assert LastBraceEnd(s, i, |s|) == |p| + |m|;
      assert s[|p|..|p| + |m|] == m;
    }
  }

  /** Trimming twice is trimming once. */
  lemma TrimIdempotent(s: string)
    ensures TrimToBraces(TrimToBraces(s)) == TrimToBraces(s)
  {
    var t := TrimToBraces(s);
    assert [] + t + [] == t;
    TrimCharacterisation([], t, []);
  }

  /** The trim is empty exactly when the line holds no brace. */
  lemma TrimEmptyIffNoBrace(s: string)
    ensures TrimToBraces(s) == [] <==> NoBrace(s)
  {
    var i := FirstBrace(s, 0);
    if i < |s| {
      assert LastBraceEnd(s, i, |s|) > i;
      assert !NoBrace(s);
    }
  }

  // ---------------------------------------------------------------------
  // Order of a popped stack.

  /** Concatenation regrouped; stated once so that callers need not reason element by element. */
  lemma AppendAssoc<T>(a: seq<T>, b: seq<T>, c: seq<T>)
    ensures a + b + c == a + (b + c)
  {
  }


  /** A sequence in reverse order. */
  function Reversed<T>(s: seq<T>): (r: seq<T>)
    ensures |r| == |s|
  {
    if s == [] then [] else [s[|s| - 1]] + Reversed(s[..|s| - 1])
  }

  /** The element `k` places from the front of the reversal is `k` places from the back of the original. */
  lemma {:induction false} ReversedAt<T>(s: seq<T>, k: nat)
    requires k < |s|
    ensures Reversed(s)[k] == s[|s| - 1 - k]
    decreases |s|
  {
    if k > 0 {
      ReversedAt(s[..|s| - 1], k - 1);
    }
  }

  lemma {:induction false} ReversedAppend<T>(a: seq<T>, b: seq<T>)
    ensures Reversed(a + b) == Reversed(b) + Reversed(a)
    decreases |b|
  {
    if b == [] {
      assert a + b == a;
    } else {
      var b' := b[..|b| - 1];
      assert (a + b)[..|a + b| - 1] == a + b';
      assert (a + b)[|a + b| - 1] == b[|b| - 1];
      ReversedAppend(a, b');
    }
  }

  lemma ReversedSnoc<T>(s: seq<T>, x: T)
    ensures Reversed(s + [x]) == [x] + Reversed(s)
  {
    ReversedAppend(s, [x]);
    assert [x][..0] == [];
  }

  lemma {:induction false} ReversedInvolutive<T>(s: seq<T>)
    ensures Reversed(Reversed(s)) == s
    decreases |s|
  {
    if s != [] {
      var init, last := s[..|s| - 1], s[|s| - 1];
      ReversedInvolutive(init);
      ReversedAppend([last], Reversed(init));
      assert [last][..0] == [];
      assert s == init + [last];
    }
  }

  // ---------------------------------------------------------------------
  // What one worker sends, as functions of its inputs.

  /** The record a line contributes: its trimmed parse, when that parses and is admitted. */
  function LineOutput<U>(filter: RecordFilter.Filter, env: Inputs<U>, l: LineRead): (out: seq<U>)
    ensures |out| <= 1
    ensures out != [] <==>
      l.Line? && env.parse(TrimToBraces(l.text)).Some? &&
      RecordFilter.Admit(filter, env.view(env.parse(TrimToBraces(l.text)).value))
    ensures out != [] ==> out[0] == env.parse(TrimToBraces(l.text)).value
  {
    match l
    case ReadError => []
    case Line(text) =>
      match env.parse(TrimToBraces(text))
      case None => []
      case Some(content) => if RecordFilter.Admit(filter, env.view(content)) then [content] else []
  }

  /** The records a line stream contributes, in line order. */
  function LinesOutput<U>(filter: RecordFilter.Filter, env: Inputs<U>, lines: seq<LineRead>): (out: seq<U>)
    ensures |out| <= |lines|
  {
    if lines == [] then []
    else LinesOutput(filter, env, lines[..|lines| - 1]) + LineOutput(filter, env, lines[|lines| - 1])
  }

  lemma LinesOutputSingle<U>(filter: RecordFilter.Filter, env: Inputs<U>, l: LineRead)
    ensures LinesOutput(filter, env, [l]) == LineOutput(filter, env, l)
  {
    assert [l][..0] == [];
  }

  /** Only admitted records are sent. */
  lemma {:induction false} LinesOutputAdmitted<U>(filter: RecordFilter.Filter, env: Inputs<U>, lines: seq<LineRead>)
    ensures forall k :: 0 <= k < |LinesOutput(filter, env, lines)| ==>
      RecordFilter.Admit(filter, env.view(LinesOutput(filter, env, lines)[k]))
    decreases |lines|
  {
    if lines != [] {
      LinesOutputAdmitted(filter, env, lines[..|lines| - 1]);
    }
  }

  lemma {:induction false} LinesOutputAppend<U>(filter: RecordFilter.Filter, env: Inputs<U>, a: seq<LineRead>, b: seq<LineRead>)
    ensures LinesOutput(filter, env, a + b) == LinesOutput(filter, env, a) + LinesOutput(filter, env, b)
    decreases |b|
  {
    if b == [] {
      assert a + b == a;
    } else {
      assert (a + b)[..|a + b| - 1] == a + b[..|b| - 1];
      LinesOutputAppend(filter, env, a, b[..|b| - 1]);
      AppendAssoc(LinesOutput(filter, env, a), LinesOutput(filter, env, b[..|b| - 1]), LineOutput(filter, env, b[|b| - 1]));
    }
  }

  /** A line that fails to read or to parse, or is refused, is skipped, and the lines after it still count. */
  lemma SkippedLine<U>(filter: RecordFilter.Filter, env: Inputs<U>, before: seq<LineRead>, l: LineRead, after: seq<LineRead>)
    requires l.ReadError? || env.parse(TrimToBraces(l.text)).None? ||
             !RecordFilter.Admit(filter, env.view(env.parse(TrimToBraces(l.text)).value))
    ensures LinesOutput(filter, env, before + [l] + after) == LinesOutput(filter, env, before) + LinesOutput(filter, env, after)
  {
    assert LineOutput(filter, env, l) == [];
    LinesOutputAppend(filter, env, before + [l], after);
    DroppedLine(filter, env, before, l);
  }

  lemma DroppedLine<U>(filter: RecordFilter.Filter, env: Inputs<U>, before: seq<LineRead>, l: LineRead)
    requires LineOutput(filter, env, l) == []
    ensures LinesOutput(filter, env, before + [l]) == LinesOutput(filter, env, before)
  {
    LinesOutputAppend(filter, env, before, [l]);
    LinesOutputSingle(filter, env, l);
    assert LinesOutput(filter, env, before) + [] == LinesOutput(filter, env, before);
  }

  /** An admitted line is sent between what the lines before and after it send. */
  lemma SentLine<U>(filter: RecordFilter.Filter, env: Inputs<U>, before: seq<LineRead>, text: string, after: seq<LineRead>, r: U)
    requires env.parse(TrimToBraces(text)) == Some(r) && RecordFilter.Admit(filter, env.view(r))
    ensures LinesOutput(filter, env, before + [Line(text)] + after) ==
      LinesOutput(filter, env, before) + [r] + LinesOutput(filter, env, after)
  {
    LinesOutputAppend(filter, env, before + [Line(text)], after);
    LinesOutputAppend(filter, env, before, [Line(text)]);
    LinesOutputSingle(filter, env, Line(text));
  }

  /** Every record sent comes from a line of the stream that parses to it. */
  lemma {:induction false} OutputFromLines<U>(filter: RecordFilter.Filter, env: Inputs<U>, lines: seq<LineRead>, k: nat)
    requires k < |LinesOutput(filter, env, lines)|
    ensures exists i :: (0 <= i < |lines| && lines[i].Line? &&
      env.parse(TrimToBraces(lines[i].text)) == Some(LinesOutput(filter, env, lines)[k]))
    decreases |lines|
  {
    var init := lines[..|lines| - 1];
    var n := |lines| - 1;
    if k < |LinesOutput(filter, env, init)| {
      OutputFromLines(filter, env, init, k);
      var i :| 0 <= i < |init| && init[i].Line? &&
        env.parse(TrimToBraces(init[i].text)) == Some(LinesOutput(filter, env, init)[k]);
      assert lines[i] == init[i];
    } else {
      assert lines[n].Line?;
    }
  }

  /** The records a file contributes: none when it fails to open. */
  function FileOutput<U>(filter: RecordFilter.Filter, env: Inputs<U>, f: Path): (out: seq<U>)
    ensures env.open(f).OpenError? ==> out == []
    ensures env.open(f).Lines? ==> |out| <= |env.open(f).lines|
  {
    match env.open(f)
    case OpenError => []
    case Lines(lines) => LinesOutput(filter, env, lines)
  }

  /** The records several files contribute when processed in the given order. */
  function FilesOutput<U>(filter: RecordFilter.Filter, env: Inputs<U>, files: seq<Path>): (out: seq<U>)
    ensures files == [] ==> out == []
    ensures |files| == 1 ==> out == FileOutput(filter, env, files[0])
  {
    if files == [] then []
    else FilesOutput(filter, env, files[..|files| - 1]) + FileOutput(filter, env, files[|files| - 1])
  }

  lemma FilesOutputSnoc<U>(filter: RecordFilter.Filter, env: Inputs<U>, files: seq<Path>, f: Path)
    ensures FilesOutput(filter, env, files + [f]) == FilesOutput(filter, env, files) + FileOutput(filter, env, f)
  {
    assert (files + [f])[..|files|] == files;
  }

  lemma FilesOutputSingle<U>(filter: RecordFilter.Filter, env: Inputs<U>, f: Path)
    ensures FilesOutput(filter, env, [f]) == FileOutput(filter, env, f)
  {
    assert [f][..0] == [];
  }

  /** Files none of which opens contribute nothing. */
  lemma {:induction false} NoFileOpens<U>(filter: RecordFilter.Filter, env: Inputs<U>, files: seq<Path>)
    requires forall i :: 0 <= i < |files| ==> env.open(files[i]).OpenError?
    ensures FilesOutput(filter, env, files) == []
    decreases |files|
  {
    if files != [] {
      var init := files[..|files| - 1];
      assert forall i :: 0 <= i < |init| ==> init[i] == files[i];
      NoFileOpens(filter, env, init);
    }
  }

  /** Only admitted records are sent, whatever the files. */
  lemma {:induction false} FilesOutputAdmitted<U>(filter: RecordFilter.Filter, env: Inputs<U>, files: seq<Path>)
    ensures forall k :: 0 <= k < |FilesOutput(filter, env, files)| ==>
      RecordFilter.Admit(filter, env.view(FilesOutput(filter, env, files)[k]))
    decreases |files|
  {
    if files != [] {
      FilesOutputAdmitted(filter, env, files[..|files| - 1]);
      var f := files[|files| - 1];
      if env.open(f).Lines? {
        LinesOutputAdmitted(filter, env, env.open(f).lines);
      }
    }
  }

  lemma {:induction false} FilesOutputAppend<U>(filter: RecordFilter.Filter, env: Inputs<U>, a: seq<Path>, b: seq<Path>)
    ensures FilesOutput(filter, env, a + b) == FilesOutput(filter, env, a) + FilesOutput(filter, env, b)
    decreases |b|
  {
    if b == [] {
      assert a + b == a;
    } else {
      assert (a + b)[..|a + b| - 1] == a + b[..|b| - 1];
      FilesOutputAppend(filter, env, a, b[..|b| - 1]);
      AppendAssoc(FilesOutput(filter, env, a), FilesOutput(filter, env, b[..|b| - 1]), FileOutput(filter, env, b[|b| - 1]));
    }
  }

  /** A file that fails to open is skipped, and the files after it are still processed. */
  lemma SkippedFile<U>(filter: RecordFilter.Filter, env: Inputs<U>, before: seq<Path>, f: Path, after: seq<Path>)
    requires env.open(f).OpenError?
    ensures FilesOutput(filter, env, before + [f] + after) == FilesOutput(filter, env, before) + FilesOutput(filter, env, after)
  {
    assert FileOutput(filter, env, f) == [];
    FilesOutputAppend(filter, env, before + [f], after);
    FilesOutputAppend(filter, env, before, [f]);
    FilesOutputSingle(filter, env, f);
    assert FilesOutput(filter, env, before) + [] == FilesOutput(filter, env, before);
  }

  /** What draining a queue sends: its files are taken from the back. */
  function QueueOutput<U>(filter: RecordFilter.Filter, env: Inputs<U>, queue: seq<Path>): (out: seq<U>)
    ensures queue == [] ==> out == []
    ensures |queue| == 1 ==> out == FileOutput(filter, env, queue[0])
  {
    FilesOutput(filter, env, Reversed(queue))
  }

  /** The last file of the queue is processed first, then the rest of the queue. */
  lemma QueueOutputPop<U>(filter: RecordFilter.Filter, env: Inputs<U>, queue: seq<Path>)
    requires queue != []
    ensures QueueOutput(filter, env, queue) ==
      FileOutput(filter, env, queue[|queue| - 1]) + QueueOutput(filter, env, queue[..|queue| - 1])
  {
    var init, last := queue[..|queue| - 1], queue[|queue| - 1];
    assert queue == init + [last];
    ReversedAppend(init, [last]);
    assert Reversed([last]) == [last];
    FilesOutputAppend(filter, env, [last], Reversed(init));
    FilesOutputSingle(filter, env, last);
  }

  // ---------------------------------------------------------------------
  // The shared state.

  /** The shared `Vec` of files still to import. */
  class FileQueue {
    var files: seq<Path>

    constructor(files: seq<Path>)
      ensures this.files == files
    {
      this.files := files;
    }

    /** `Vec::pop`: the last file, removed; nothing when the queue is empty. */
    method Pop() returns (f: Option<Path>)
      modifies this
      ensures f.None? <==> old(files) == []
      ensures f.None? ==> files == old(files)
      ensures f.Some? ==> old(files) == files + [f.value]
    {
      if files == [] {
        f := None;
      } else {
        f := Some(files[|files| - 1]);
        files := files[..|files| - 1];
      }
    }
  }

  /** The shared count of finished workers. */
  class Counter {
    var value: nat

    constructor()
      ensures value == 0
    {
      value := 0;
    }

    /** `fetch_add`: the value before the addition. */
    method FetchAdd(n: nat) returns (previous: nat)
      modifies this
      ensures previous == old(value) && value == old(value) + n
    {
      previous := value;
      value := value + n;
    }
  }

  /** The channel from the workers to the consumer, first in first out. */
  class Channel<U> {
    var items: seq<U>

    constructor()
      ensures items == []
    {
      items := [];
    }

    method Send(r: U)
      modifies this
      ensures items == old(items) + [r]
    {
      items := items + [r];
    }

    /** `try_recv`: the oldest record, removed; nothing when the channel is empty. */
    method TryRecv() returns (r: Option<U>)
      modifies this
      ensures r.None? <==> old(items) == []
      ensures r.None? ==> items == old(items)
      ensures r.Some? ==> old(items) == [r.value] + items
    {
      if items == [] {
        r := None;
      } else {
        r := Some(items[0]);
        items := items[1..];
      }
    }
  }

  /** One worker: the filter and the shared state it works on. */
  class ThreadContext<U> {
    const filter: RecordFilter.Filter
    const env: Inputs<U>
    const queue: FileQueue
    const completed: Counter
    const channel: Channel<U>

    constructor(filter: RecordFilter.Filter, env: Inputs<U>, queue: FileQueue, completed: Counter, channel: Channel<U>)
      ensures this.filter == filter && this.env == env
      ensures this.queue == queue && this.completed == completed && this.channel == channel
    {
      this.filter := filter;
      this.env := env;
      this.queue := queue;
      this.completed := completed;
      this.channel := channel;
    }

    /** `get_next_file`: pops the queue. */
    method GetNextFile() returns (f: Option<Path>)
      modifies queue
      ensures f.None? <==> old(queue.files) == []
      ensures f.None? ==> queue.files == old(queue.files)
      ensures f.Some? ==> old(queue.files) == queue.files + [f.value]
    {
      f := queue.Pop();
    }

    /** The line loop of `process_queue` over one opened file. */
    method ProcessLines(lines: seq<LineRead>)
      modifies channel
      ensures channel.items == old(channel.items) + LinesOutput(filter, env, lines)
    {
      var i := 0;
      while i < |lines|
        invariant 0 <= i <= |lines|
        invariant channel.items == old(channel.items) + LinesOutput(filter, env, lines[..i])
      {
        assert lines[..i + 1][..i] == lines[..i];
        AppendAssoc(old(channel.items), LinesOutput(filter, env, lines[..i]), LineOutput(filter, env, lines[i]));
        match lines[i] {
          case ReadError =>
          case Line(text) =>
            var line := TrimToBraces(text);
            var content := env.parse(line);
            if content.Some? && RecordFilter.Admit(filter, env.view(content.value)) {
              channel.Send(content.value);
            }
        }
        i := i + 1;
      }
      assert lines[..i] == lines;
    }

    /** One file of `process_queue`: opened, and its lines processed when it opens. */
    method ProcessFile(filename: Path)
      modifies channel
      ensures channel.items == old(channel.items) + FileOutput(filter, env, filename)
    {
      var stream := env.open(filename);
      if stream.Lines? {
        ProcessLines(stream.lines);
      }
    }

    /**
     * `process_queue`: takes every file from the back of the queue, sends
     * what its lines contribute, and counts itself finished once the queue
     * is empty. `done` is the order in which the files were taken: each file
     * of the queue once, last first.
     */
    method ProcessQueue() returns (ghost done: seq<Path>)
      modifies queue, completed, channel
      ensures queue.files == []
      ensures completed.value == old(completed.value) + 1
      ensures done == Reversed(old(queue.files))
      ensures channel.items == old(channel.items) + FilesOutput(filter, env, done)
    {
      done := [];
      while true
        invariant old(queue.files) == queue.files + Reversed(done)
        invariant channel.items == old(channel.items) + FilesOutput(filter, env, done)
        invariant completed.value == old(completed.value)
        decreases |queue.files|
      {
        var next := GetNextFile();
        if next.None? {
          break;
        }
        var filename := next.value;
        ProcessFile(filename);
        FilesOutputSnoc(filter, env, done, filename);
        AppendAssoc(old(channel.items), FilesOutput(filter, env, done), FileOutput(filter, env, filename));
        ReversedSnoc(done, filename);
        AppendAssoc(queue.files, [filename], Reversed(done));
        done := done + [filename];
      }
      var _ := completed.FetchAdd(1);
      assert [] + Reversed(done) == Reversed(done);
      ReversedInvolutive(done);
    }
  }

  // ---------------------------------------------------------------------
  // `process`: the workers, then the consumer.

  /** How the consumer loop ended: the channel drained, or an insert failed and `expect` panicked. */
  datatype Outcome = Finished | StorePanicked

  /** The workers `process` spawns as written: one fewer than the physical cores. */
  function SpawnedWorkers(numCpus: nat): (n: nat)
    requires numCpus >= 1
    ensures n < numCpus
    ensures n == 0 <==> numCpus == 1
  {
    numCpus - 1
  }

  /** The worker count with the single-core case corrected: one fewer than the cores, but at least one. */
  function WorkerCount(numCpus: nat): (n: nat)
    requires numCpus >= 1
    ensures n >= 1
    ensures numCpus >= 2 ==> n == SpawnedWorkers(numCpus)
  {
    if numCpus == 1 then 1 else numCpus - 1
  }

  /** Each prefix of `rs`, stored after the log `base`, was answered with a row count. */
  predicate AllStored(respond: seq<StoreCall> -> Result<nat, StoreError>, base: seq<StoreCall>, rs: seq<Record>)
  {
    forall k :: 0 < k <= |rs| ==> respond(base + CallsFor(rs[..k])).Ok?
  }

  lemma CallsForSnoc(rs: seq<Record>, r: Record)
    ensures CallsFor(rs + [r]) == CallsFor(rs) + [CallFor(r)]
  {
  }

  /**
   * The consumer loop of `process`, once every worker has finished: receives
   * until the channel is empty and stores each record in order; the first
   * insert that fails panics. An empty channel ends the loop because the
   * finished count has reached the number of workers.
   */
  method Consume(db: Storage, channel: Channel<Record>, completed: Counter, workers: nat) returns (count: nat, outcome: Outcome)
    requires completed.value == workers
    modifies db, channel
    ensures outcome == Finished ==>
      count == |old(channel.items)| &&
      db.calls == old(db.calls) + CallsFor(old(channel.items)) &&
      AllStored(db.respond, old(db.calls), old(channel.items))
    ensures outcome == StorePanicked ==>
      count < |old(channel.items)| &&
      db.calls == old(db.calls) + CallsFor(old(channel.items)[..count + 1]) &&
      AllStored(db.respond, old(db.calls), old(channel.items)[..count]) &&
      db.respond(db.calls).Err?
  {
    ghost var out := channel.items;
    ghost var before := db.calls;
    count := 0;
    outcome := Finished;
    while true
      invariant count <= |out| && channel.items == out[count..]
      invariant db.calls == before + CallsFor(out[..count])
      invariant AllStored(db.respond, before, out[..count])
      decreases |channel.items|
    {
      var maybeContent := channel.TryRecv();
      if maybeContent.None? {
        if completed.value < workers {
          // every worker has finished before the consumer runs: it never sleeps
          assert false;
        }
        break;
      }
      var content := maybeContent.value;
      assert content == out[count];
      assert out[..count + 1] == out[..count] + [content];
      CallsForSnoc(out[..count], content);
      AppendAssoc(before, CallsFor(out[..count]), [CallFor(content)]);
      var stored := Store(db, content);
      if stored.Err? {
        outcome := StorePanicked;
        return;
      }
      ghost var prefix := out[..count + 1];
      forall k | 0 < k <= |prefix|
        ensures db.respond(before + CallsFor(prefix[..k])).Ok?
      {
        if k < |prefix| {
          assert prefix[..k] == out[..count][..k];
        } else {
          assert prefix[..k] == prefix;
        }
      }
      count := count + 1;
    }
    assert out[..count] == out;
  }

  /**
   * The body of `process` for a given number of workers: each runs
   * `process_queue` over the shared queue, then the consumer stores what the
   * channel holds until it is empty and every worker has finished.
   */
  method Run(filter: RecordFilter.Filter, env: Inputs<Record>, files: seq<Path>, db: Storage, workers: nat)
    returns (count: nat, outcome: Outcome)
    requires env.view == View
    modifies db
    ensures workers == 0 ==> count == 0 && outcome == Finished && db.calls == old(db.calls)
    ensures workers >= 1 && outcome == Finished ==>
      count == |QueueOutput(filter, env, files)| &&
      db.calls == old(db.calls) + CallsFor(QueueOutput(filter, env, files)) &&
      AllStored(db.respond, old(db.calls), QueueOutput(filter, env, files))
    ensures workers >= 1 && outcome == StorePanicked ==>
      count < |QueueOutput(filter, env, files)| &&
      db.calls == old(db.calls) + CallsFor(QueueOutput(filter, env, files)[..count + 1]) &&
      db.respond(db.calls).Err?
    ensures workers >= 1 && outcome == Finished ==>
      forall k :: 0 <= k < count ==> RecordFilter.Admit(filter, View(QueueOutput(filter, env, files)[k]))
  {
    var queue := new FileQueue(files);
    var completed := new Counter();
    var channel := new Channel<Record>();
    var w := 0;
    while w < workers
      invariant 0 <= w <= workers
      invariant completed.value == w
      invariant w == 0 ==> queue.files == files && channel.items == []
      invariant w > 0 ==> queue.files == [] && channel.items == QueueOutput(filter, env, files)
      invariant db.calls == old(db.calls)
    {
      var ctx := new ThreadContext(filter, env, queue, completed, channel);
      ghost var order := ctx.ProcessQueue();
      if w == 0 {
        assert [] + QueueOutput(filter, env, files) == QueueOutput(filter, env, files);
      } else {
        assert Reversed<Path>([]) == [];
        assert QueueOutput(filter, env, files) + [] == QueueOutput(filter, env, files);
      }
      w := w + 1;
    }
    count, outcome := Consume(db, channel, completed, workers);
    FilesOutputAdmitted(filter, env, Reversed(files));
    if workers == 0 {
      assert CallsFor([]) == [];
      assert old(db.calls) + [] == old(db.calls);
    }
  }

  /** `process` as written: on a single core no worker is spawned, so nothing is read or stored. */
  method ProcessAsWritten(filter: RecordFilter.Filter, env: Inputs<Record>, files: seq<Path>, db: Storage, numCpus: nat)
    returns (count: nat, outcome: Outcome)
    requires env.view == View
    requires numCpus >= 1
    modifies db
    ensures numCpus == 1 ==> count == 0 && outcome == Finished && db.calls == old(db.calls)
    ensures numCpus >= 2 && outcome == Finished ==> db.calls == old(db.calls) + CallsFor(QueueOutput(filter, env, files))
  {
    count, outcome := Run(filter, env, files, db, SpawnedWorkers(numCpus));
  }

  /** `process` with at least one worker: every admitted record of every file is stored, in queue order. */
  method Process(filter: RecordFilter.Filter, env: Inputs<Record>, files: seq<Path>, db: Storage, numCpus: nat)
    returns (count: nat, outcome: Outcome)
    requires env.view == View
    requires numCpus >= 1
    modifies db
    ensures outcome == Finished ==>
      count == |QueueOutput(filter, env, files)| &&
      db.calls == old(db.calls) + CallsFor(QueueOutput(filter, env, files)) &&
      AllStored(db.respond, old(db.calls), QueueOutput(filter, env, files))
    ensures outcome == Finished ==>
      forall k :: 0 <= k < count ==> RecordFilter.Admit(filter, View(QueueOutput(filter, env, files)[k]))
    ensures outcome == StorePanicked ==>
      count < |QueueOutput(filter, env, files)| && db.respond(db.calls).Err?
  {
    count, outcome := Run(filter, env, files, db, WorkerCount(numCpus));
  }

  /**
   * A single file holding one line that parses: with no criteria the record
   * is admitted, so a worker sends it, and it is what a single core loses
   * as written.
   */
  lemma SingleCoreLosesRecords<U>(env: Inputs<U>, f: Path, r: U)
    requires env.open(f) == Lines([Line("{}")]) && env.parse("{}") == Some(r)
    ensures QueueOutput(RecordFilter.Default, env, [f]) == [r]
  {
    TrimCharacterisation([], "{}", []);
    assert [] + "{}" + [] == "{}";
    assert RecordFilter.Admit(RecordFilter.Default, env.view(r));
    assert Reversed([f]) == [f];
    assert LinesOutput(RecordFilter.Default, env, [Line("{}")]) == [r] by {
      assert [Line("{}")][..0] == [];
    }
    FilesOutputSingle(RecordFilter.Default, env, f);
  }
}
