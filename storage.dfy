/** The todo.txt file of src/tasq/storage.py as a sequence of lines. The
    file is the state of a `TodoFile`: whether it exists and, if it does,
    its lines. Writing is all-or-nothing: `writeOk` says whether the
    operating system carried the write out; when it did not, the file is
    as it was. The advisory lock has no effect on the content and is not
    modelled. */
module Storage {
  import opened Text
  import opened Patterns
  import opened TodoTxt
  import TodoTxtProperties

  datatype Error = FileNotFound | IndexOutOfRange | WriteFailed

  datatype Result<T> = Ok(value: T) | Err(error: Error)

  /** The test of `get_next_incomplete` (storage.py:192): the stripped line is
      not empty and does not start with `x `. It is not `parse(line).completed`. */
  predicate IsQueued(line: string) {
    Strip(line) != [] && !IsCompletedLine(line)
  }

  /** Which lines are queued. */
  function QueuedFlags(lines: seq<string>): (f: seq<bool>)
    ensures |f| == |lines|
  {
    seq(|lines|, i requires 0 <= i < |lines| => IsQueued(lines[i]))
  }

  /** The first position holding `true`, if any. */
  function FirstTrue(flags: seq<bool>): (r: Option<nat>)
    ensures r.Some? ==> r.value < |flags| && flags[r.value]
    ensures r.Some? ==> forall j :: 0 <= j < r.value ==> !flags[j]
    ensures r.None? <==> forall j :: 0 <= j < |flags| ==> !flags[j]
  {
    if flags == [] then None
    else if flags[0] then Some(0)
    else match FirstTrue(flags[1..])
      case Some(i) => Some(i + 1)
      case None => None
  }

  /** The index of the first queued line: every earlier line is blank or
      starts with `x `; `None` when no line is queued. */
  function FirstQueued(lines: seq<string>): (r: Option<nat>)
    ensures r.Some? ==> r.value < |lines| && IsQueued(lines[r.value])
    ensures r.Some? ==> forall j :: 0 <= j < r.value ==> !IsQueued(lines[j])
    ensures r.None? <==> forall j :: 0 <= j < |lines| ==> !IsQueued(lines[j])
  {
    var f := QueuedFlags(lines);
    assert forall j :: 0 <= j < |lines| ==> f[j] == IsQueued(lines[j]);
    FirstTrue(f)
  }

  /** The elements of `xs` whose flag is set, in order. */
  function Select<T>(xs: seq<T>, keep: seq<bool>): (r: seq<T>)
    requires |keep| == |xs|
    ensures |r| <= |xs|
  {
    if xs == [] then [] else (if keep[0] then [xs[0]] else []) + Select(xs[1..], keep[1..])
  }

  lemma {:induction false} SelectConcat<T>(a: seq<T>, ka: seq<bool>, b: seq<T>, kb: seq<bool>)
    requires |ka| == |a| && |kb| == |b|
    ensures Select(a + b, ka + kb) == Select(a, ka) + Select(b, kb)
    decreases |a|
  {
    if a != [] {
      assert (a + b)[1..] == a[1..] + b;
      assert (ka + kb)[1..] == ka[1..] + kb;
      SelectConcat(a[1..], ka[1..], b, kb);
      assert Select(a + b, ka + kb)
        == (if ka[0] then [a[0]] else []) + Select(a[1..] + b, ka[1..] + kb);
    } else {
      assert a + b == b && ka + kb == kb;
    }
  }

  /** An element is selected exactly when it sits at a flagged position. */
  lemma {:induction false} SelectMembers<T>(xs: seq<T>, keep: seq<bool>, x: T)
    requires |keep| == |xs|
    ensures x in Select(xs, keep) <==> exists i :: 0 <= i < |xs| && keep[i] && xs[i] == x
    decreases |xs|
  {
    if xs != [] {
      SelectMembers(xs[1..], keep[1..], x);
      if exists i :: 0 <= i < |xs| && keep[i] && xs[i] == x {
        var i :| 0 <= i < |xs| && keep[i] && xs[i] == x;
        if i > 0 {
          assert keep[1..][i - 1] && xs[1..][i - 1] == x;
        }
      }
      if x in Select(xs[1..], keep[1..]) {
        var i :| 0 <= i < |xs[1..]| && keep[1..][i] && xs[1..][i] == x;
        assert keep[i + 1] && xs[i + 1] == x;
      }
    }
  }

  /** Which lines are not blank. */
  function NonBlankFlags(lines: seq<string>): (f: seq<bool>)
    ensures |f| == |lines|
  {
    seq(|lines|, i requires 0 <= i < |lines| => Strip(lines[i]) != [])
  }

  /** The lines `read_tasks` keeps (storage.py:126): the non-blank ones. */
  function NonBlank(lines: seq<string>): (kept: seq<string>)
    ensures |kept| <= |lines|
  {
    Select(lines, NonBlankFlags(lines))
  }

  /** `f` applied to each element, in order. */
  function Map<A, B>(f: A -> B, xs: seq<A>): (ys: seq<B>)
    ensures |ys| == |xs| && forall i :: 0 <= i < |xs| ==> ys[i] == f(xs[i])
  {
    seq(|xs|, i requires 0 <= i < |xs| => f(xs[i]))
  }

  lemma MapSnoc<A, B>(f: A -> B, xs: seq<A>, x: A)
    ensures Map(f, xs + [x]) == Map(f, xs) + [f(x)]
  {
    assert forall i :: 0 <= i < |xs| ==> (xs + [x])[i] == xs[i];
  }

  lemma MapPrefixStep<A, B>(f: A -> B, xs: seq<A>, i: nat)
    requires i < |xs|
    ensures Map(f, xs[..i + 1]) == Map(f, xs[..i]) + [f(xs[i])]
  {
    assert xs[..i + 1] == xs[..i] + [xs[i]];
    MapSnoc(f, xs[..i], xs[i]);
  }

  lemma MapWhole<A, B>(f: A -> B, xs: seq<A>)
    ensures Map(f, xs[..|xs|]) == Map(f, xs)
  {
    assert xs[..|xs|] == xs;
  }

  /** `Task.parse` applied to each line. */
  function ParseAll(lines: seq<string>): seq<Task> {
    Map(Parsed, lines)
  }

  /** The lines kept are exactly the non-blank ones. */
  lemma NonBlankMembers(lines: seq<string>, l: string)
    ensures l in NonBlank(lines) <==> exists i :: 0 <= i < |lines| && Strip(lines[i]) != [] && lines[i] == l
  {
    SelectMembers(lines, NonBlankFlags(lines), l);
    assert forall i :: 0 <= i < |lines| ==> NonBlankFlags(lines)[i] == (Strip(lines[i]) != []);
  }

  /** They are kept in file order: reading two stretches gives the first
      one's lines, then the second one's. */
  lemma NonBlankConcat(lines: seq<string>, more: seq<string>)
    ensures NonBlank(lines + more) == NonBlank(lines) + NonBlank(more)
  {
    assert NonBlankFlags(lines + more) == NonBlankFlags(lines) + NonBlankFlags(more);
    SelectConcat(lines, NonBlankFlags(lines), more, NonBlankFlags(more));
  }

  lemma SelectStep<T>(xs: seq<T>, keep: seq<bool>, i: nat)
    requires |keep| == |xs| && i < |xs|
    ensures Select(xs[..i + 1], keep[..i + 1]) == Select(xs[..i], keep[..i]) + (if keep[i] then [xs[i]] else [])
  {
    assert xs[..i + 1] == xs[..i] + [xs[i]] && keep[..i + 1] == keep[..i] + [keep[i]];
    SelectConcat(xs[..i], keep[..i], [xs[i]], [keep[i]]);
    assert Select([xs[i]], [keep[i]]) == if keep[i] then [xs[i]] else [];
  }

  lemma FirstTrueAt(flags: seq<bool>, i: nat)
    requires i < |flags| && flags[i] && forall j :: 0 <= j < i ==> !flags[j]
    ensures FirstTrue(flags) == Some(i)
  {
  }

  /** One more line read: its task, if the line is not blank. */
  lemma NonBlankStep(ls: seq<string>, i: nat)
    requires i < |ls|
    ensures ParseAll(Select(ls[..i + 1], NonBlankFlags(ls)[..i + 1]))
      == ParseAll(Select(ls[..i], NonBlankFlags(ls)[..i])) + (if Strip(ls[i]) != [] then [Parsed(ls[i])] else [])
  {
    var keep := NonBlankFlags(ls);
    SelectStep(ls, keep, i);
    MapSnoc(Parsed, Select(ls[..i], keep[..i]), ls[i]);
  }

  /** The task of one line, or none for a blank line. */
  method ParseIfNonBlank(line: string) returns (more: seq<Task>)
    ensures more == if Strip(line) != [] then [Parsed(line)] else []
  {
    more := [];
    if Strip(line) != [] {
      var t := Parse(line);
      more := [t];
    }
  }

  /** `[Task.parse(line) for line in lines if line.strip()]` (storage.py:126). */
  method ParseNonBlankLines(ls: seq<string>) returns (tasks: seq<Task>)
    ensures tasks == ParseAll(NonBlank(ls))
  {
    tasks := [];
    for i := 0 to |ls|
      invariant tasks == ParseAll(Select(ls[..i], NonBlankFlags(ls)[..i]))
    {
      NonBlankStep(ls, i);
      var more := ParseIfNonBlank(ls[i]);
      tasks := tasks + more;
    }
    assert ls[..|ls|] == ls && NonBlankFlags(ls)[..|ls|] == NonBlankFlags(ls);
  }

  /** `[task.to_line() for task in tasks]` (storage.py:162). */
  method SerializeAll(tasks: seq<Task>) returns (out: seq<string>)
    ensures out == Map(Serialized, tasks)
  {
    out := [];
    for i := 0 to |tasks|
      invariant out == Map(Serialized, tasks[..i])
    {
      var line := ToLine(tasks[i]);
      MapPrefixStep(Serialized, tasks, i);
      out := out + [line];
    }
    MapWhole(Serialized, tasks);
  }


  /** Completing the line that `get_next_incomplete` offered takes it out of
      the queue: the next offer is a later line, or none. */
  lemma QueueAdvances(lines: seq<string>, today: string)
    requires IsDateToken(today) && FirstQueued(lines).Some?
    ensures var i := FirstQueued(lines).value;
      var after := lines[i := Serialized(MarkComplete(Parsed(lines[i]), today))];
      FirstQueued(after).None? || FirstQueued(after).value > i
  {
    var i := FirstQueued(lines).value;
    var done := Serialized(MarkComplete(Parsed(lines[i]), today));
    var after := lines[i := done];
    TodoTxtProperties.CompletedLineIsMarked(lines[i], today);
    assert !IsQueued(done);
    var q := QueuedFlags(after);
    forall j | 0 <= j <= i
      ensures !q[j]
    {
      if j < i {
        assert after[j] == lines[j];
      }
    }
    FirstTrueBeyond(q, i);
  }

  lemma FirstTrueBeyond(flags: seq<bool>, i: nat)
    requires i < |flags| && forall j :: 0 <= j <= i ==> !flags[j]
    ensures FirstTrue(flags).None? || FirstTrue(flags).value > i
  {
  }

  class TodoFile {
    /** Whether the file is present (`exists` is a reserved word here). */
    var fileExists: bool
    /** The file's lines, without their line terminators. */
    var lines: seq<string>

    /** A missing file has no lines. */
    ghost predicate Valid()
      reads this
    {
      fileExists || lines == []
    }

    /** A handle on a file found in the given state. */
    constructor (present: bool, content: seq<string>)
      requires present || content == []
      ensures Valid() && fileExists == present && lines == content
    {
      fileExists := present;
      lines := content;
    }

    /** `exists` (storage.py:96-102). */
    method Exists() returns (b: bool)
      ensures b == fileExists
    {
      b := fileExists;
    }

    /** `read_lines` (storage.py:104-114): the lines, or FileNotFoundError. */
    method ReadLines() returns (r: Result<seq<string>>)
      ensures fileExists ==> r == Ok(lines)
      ensures !fileExists ==> r == Err(FileNotFound)
    {
      if !fileExists {
        return Err(FileNotFound);
      }
      r := Ok(lines);
    }

    /** `read_tasks` (storage.py:116-126): the parsed non-blank lines in order. */
    method ReadTasks() returns (r: Result<seq<Task>>)
      ensures fileExists ==> r == Ok(ParseAll(NonBlank(lines)))
      ensures !fileExists ==> r == Err(FileNotFound)
    {
      var read := ReadLines();
      if read.Err? {
        return Err(read.error);
      }
      var tasks := ParseNonBlankLines(read.value);
      r := Ok(tasks);
    }

    /** `write_lines` (storage.py:128-154): on success the file holds exactly
        `newLines`; on failure it is as it was. */
    method WriteLines(newLines: seq<string>, writeOk: bool) returns (r: Result<()>)
      requires Valid()
      modifies this
      ensures writeOk ==> r == Ok(()) && fileExists && lines == newLines
      ensures !writeOk ==> r == Err(WriteFailed) && fileExists == old(fileExists) && lines == old(lines)
      ensures Valid()
    {
      if !writeOk {
        return Err(WriteFailed);
      }
      fileExists := true;
      lines := newLines;
      r := Ok(());
    }

    /** `write_tasks` (storage.py:156-163): one serialised line per task. */
    method WriteTasks(tasks: seq<Task>, writeOk: bool) returns (r: Result<()>)
      requires Valid()
      modifies this
      ensures writeOk ==>
        && r == Ok(()) && fileExists && lines == Map(Serialized, tasks)
      ensures !writeOk ==> r == Err(WriteFailed) && fileExists == old(fileExists) && lines == old(lines)
      ensures Valid()
    {
      var out := SerializeAll(tasks);
      r := WriteLines(out, writeOk);
    }

    /** `append_task` (storage.py:165-179): an absent file is created; the
        task's line is added at the end. */
    method AppendTask(t: Task, writeOk: bool) returns (r: Result<()>)
      requires Valid()
      modifies this
      ensures writeOk ==> r == Ok(()) && fileExists && lines == old(lines) + [Serialized(t)]
      ensures !writeOk ==> r == Err(WriteFailed) && fileExists == old(fileExists) && lines == old(lines)
      ensures Valid()
    {
      var line := ToLine(t);
      if !writeOk {
        return Err(WriteFailed);
      }
      fileExists := true;
      lines := lines + [line];
      r := Ok(());
    }

    /** `get_next_incomplete` (storage.py:181-195): the first queued line and
        its parse; nothing when the file is absent or no line is queued. */
    method GetNextIncomplete() returns (r: Option<(nat, Task)>)
      ensures !fileExists ==> r == None
      ensures fileExists ==> match FirstQueued(lines)
        case Some(i) => r == Some((i, Parsed(lines[i])))
        case None => r == None
    {
      var present := Exists();
      if !present {
        return None;
      }
      var read := ReadLines();
      var ls := read.value;
      ghost var queued := QueuedFlags(ls);
      for i := 0 to |ls|
        invariant forall j :: 0 <= j < i ==> !queued[j]
      {
        var stripped := Strip(ls[i]);
        assert queued[i] == (stripped != [] && !StartsWith(stripped, "x "));
        if stripped != [] && !StartsWith(stripped, "x ") {
          FirstTrueAt(queued, i);
          var t := Parse(ls[i]);
          return Some((i, t));
        }
      }
      return None;
    }

    /** `complete_task` (storage.py:197-222): the line at `index` is parsed,
        completed and written back in place; every other line is kept. */
    method CompleteTask(index: int, today: string, writeOk: bool) returns (r: Result<Task>)
      requires Valid()
      modifies this
      ensures !old(fileExists) ==> r == Err(FileNotFound) && !fileExists && lines == old(lines)
      ensures old(fileExists) && !(0 <= index < |old(lines)|) ==>
        r == Err(IndexOutOfRange) && fileExists && lines == old(lines)
      ensures old(fileExists) && 0 <= index < |old(lines)| && !writeOk ==>
        r == Err(WriteFailed) && fileExists && lines == old(lines)
      ensures old(fileExists) && 0 <= index < |old(lines)| && writeOk ==>
        var done := MarkComplete(Parsed(old(lines)[index]), today);
        r == Ok(done) && fileExists && lines == old(lines)[index := Serialized(done)]
      ensures Valid()
    {
      var read := ReadLines();
      if read.Err? {
        return Err(read.error);
      }
      var ls := read.value;
      if index < 0 || index >= |ls| {
        return Err(IndexOutOfRange);
      }
      var task := Parse(ls[index]);
      var completed := MarkComplete(task, today);
      var line := ToLine(completed);
      ls := ls[index := line];
      var w := WriteLines(ls, writeOk);
      if w.Err? {
        return Err(w.error);
      }
      r := Ok(completed);
    }
  }

  /** `read_lines` (storage.py:226-236). */
  method ReadLines(f: TodoFile) returns (r: Result<seq<string>>)
    ensures f.fileExists ==> r == Ok(f.lines)
    ensures !f.fileExists ==> r == Err(FileNotFound)
  {
    r := f.ReadLines();
  }

  /** `write_lines_atomic` (storage.py:239-247). */
  method WriteLinesAtomic(f: TodoFile, newLines: seq<string>, writeOk: bool) returns (r: Result<()>)
    requires f.Valid()
    modifies f
    ensures writeOk ==> r == Ok(()) && f.fileExists && f.lines == newLines
    ensures !writeOk ==> r == Err(WriteFailed) && f.fileExists == old(f.fileExists) && f.lines == old(f.lines)
    ensures f.Valid()
  {
    r := f.WriteLines(newLines, writeOk);
  }

  /** `append_line` (storage.py:250-259): the line is parsed and written back
      through `to_line`, not copied verbatim. */
  method AppendLine(f: TodoFile, line: string, writeOk: bool) returns (r: Result<()>)
    requires f.Valid()
    modifies f
    ensures writeOk ==> r == Ok(()) && f.fileExists && f.lines == old(f.lines) + [Serialized(Parsed(line))]
    ensures !writeOk ==> r == Err(WriteFailed) && f.fileExists == old(f.fileExists) && f.lines == old(f.lines)
    ensures f.Valid()
  {
    var task := Parse(line);
    r := f.AppendTask(task, writeOk);
  }

  /** `update_line` (storage.py:262-275): only the line at `index` changes,
      to exactly `newLine`. */
  method UpdateLine(f: TodoFile, index: int, newLine: string, writeOk: bool) returns (r: Result<()>)
    requires f.Valid()
    modifies f
    ensures !old(f.fileExists) ==> r == Err(FileNotFound) && !f.fileExists && f.lines == old(f.lines)
    ensures old(f.fileExists) && !(0 <= index < |old(f.lines)|) ==>
      r == Err(IndexOutOfRange) && f.fileExists && f.lines == old(f.lines)
    ensures old(f.fileExists) && 0 <= index < |old(f.lines)| && !writeOk ==>
      r == Err(WriteFailed) && f.fileExists && f.lines == old(f.lines)
    ensures old(f.fileExists) && 0 <= index < |old(f.lines)| && writeOk ==>
      r == Ok(()) && f.fileExists && f.lines == old(f.lines)[index := newLine]
    ensures f.Valid()
  {
    var read := ReadLines(f);
    if read.Err? {
      return Err(read.error);
    }
    var ls := read.value;
    if index < 0 || index >= |ls| {
      return Err(IndexOutOfRange);
    }
    ls := ls[index := newLine];
    r := WriteLinesAtomic(f, ls, writeOk);
  }
}
