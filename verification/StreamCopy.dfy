/** The chunked copy of a remote command's output into a local file, with progress reports
    that are throttled and a flag that cancels it. */
module StreamCopy {
  import opened Wrappers

  type Byte = x: int | 0 <= x < 256

  /** What one read brings: the end of the stream is not among it. */
  type Arrival = bytes: seq<Byte> | bytes != [] witness [0]

  /** `Failed` is the connection's failure, `CommandFailed` the remote exit status. */
  datatype Error = Cancelled | Failed | NoSpace | CommandFailed(status: Option<nat>)

  /** What the environment does, in order: bytes arrive, the poll timer fires, the flag is set,
      the connection breaks. The end of the script is the end of the stream. */
  datatype Happening =
    | Arrive(bytes: Arrival)
    | Tick
    | SetFlag
    | Break

  /** The bytes of the stream, however they arrive. */
  function Payload(script: seq<Happening>): seq<Byte> {
    if script == [] then []
    else (if script[0].Arrive? then script[0].bytes else []) + Payload(script[1..])
  }

  /** How many bytes arrive before the flag is set. */
  function Early(script: seq<Happening>): nat {
    if script == [] || script[0].SetFlag? then 0
    else if script[0].Arrive? then |script[0].bytes| + Early(script[1..])
    else Early(script[1..])
  }

  predicate Undisturbed(script: seq<Happening>, flag: bool, cancellable: bool) {
    && Break !in script
    && (cancellable ==> !flag && SetFlag !in script)
  }

  // ---- Reading ----

  class Reader {
    var script: seq<Happening>
    var flag: bool

    constructor (script: seq<Happening>, flag: bool)
      ensures this.script == script && this.flag == flag
    {
      this.script, this.flag := script, flag;
    }

    /** `check_cancel`: the flag may have been set just before it is looked at. */
    method FlagIsSet() returns (isSet: bool)
      modifies this
      ensures isSet == flag && (old(flag) ==> flag)
      ensures Payload(script) == Payload(old(script)) && |script| <= |old(script)|
      ensures forall c :: Undisturbed(old(script), old(flag), c) ==> Undisturbed(script, flag, c)
      ensures Break in script ==> Break in old(script)
      ensures old(flag) == flag ==> script == old(script) || flag
      ensures flag <==> old(flag) || (old(script) != [] && old(script)[0].SetFlag?)
    {
      while script != [] && script[0].SetFlag?
        invariant old(flag) ==> flag
        invariant Payload(script) == Payload(old(script)) && |script| <= |old(script)|
        invariant forall c :: Undisturbed(old(script), old(flag), c) ==> Undisturbed(script, flag, c)
        invariant Break in script ==> Break in old(script)
        invariant script == old(script) || (flag && old(script) != [] && old(script)[0].SetFlag?)
        invariant script == old(script) ==> flag == old(flag)
        decreases |script|
      {
        assert script[0] in script;
        flag, script := true, script[1..];
      }
      isSet := flag;
    }

    /** One read: as many of the bytes that arrived as fit behind what is filled. */
    method Accept(ghost payload: seq<Byte>, buf: array<Byte>, filled: nat) returns (total: nat)
      requires script != [] && script[0].Arrive? && filled < buf.Length
      requires payload == buf[..filled] + Payload(script)
      modifies this`script, buf
      ensures filled <= total <= buf.Length && payload == buf[..total] + Payload(script)
      ensures total > filled && total - filled + Early(script) == Early(old(script))
      ensures forall c :: Undisturbed(old(script), flag, c) ==> Undisturbed(script, flag, c)
      ensures Break in script ==> Break in old(script)
    {
      ghost var before := buf[..filled];
      var bytes := script[0].bytes;
      var n := Take(bytes, buf, filled);
      var left := Remaining(script, n);
      total := filled + n;
      assert payload == buf[..total] + Payload(left) by {
        InTurn(before, bytes[..n], Payload(left));
      }
      script := left;
    }

    /** One turn of the loop: a read of some bytes, or the poll timer, which is what looks at the
        flag during a read. A tick without a set flag just reads on. */
    method ReadOrPoll(ghost payload: seq<Byte>, buf: array<Byte>, filled: nat, cancellable: bool)
        returns (r: Result<nat, Error>)
      requires script != [] && filled < buf.Length && payload == buf[..filled] + Payload(script)
      modifies this, buf
      ensures r.Ok? ==> filled <= r.value <= buf.Length && payload == buf[..r.value] + Payload(script)
      ensures r.Ok? ==> r.value > filled || |script| < |old(script)|
      ensures r == Err(Cancelled) <==> old(script)[0].Tick? && cancellable && old(flag)
      ensures flag == (old(flag) || old(script)[0].SetFlag?)
      ensures r.Ok? && !flag ==> r.value - filled + Early(script) == Early(old(script))
      ensures r == Err(Failed) ==> Break in old(script)
      ensures r.Ok? || r == Err(Cancelled) || r == Err(Failed)
      ensures Undisturbed(old(script), old(flag), cancellable) ==> r.Ok? && Undisturbed(script, flag, cancellable)
      ensures Break in script ==> Break in old(script)
    {
      OneLess(script, flag, cancellable);
      if script[0].Arrive? {
        var total := Accept(payload, buf, filled);
        return Ok(total);
      }
      r := if script[0].Break? then Err(Failed)
           else if script[0].Tick? && cancellable && flag then Err(Cancelled)
           else Ok(filled);
      flag := flag || script[0].SetFlag?;
      script := script[1..];
    }

    /** `read_stream_chunk`: fill the buffer, or stop at the end of the stream. */
    method ReadStreamChunk(buf: array<Byte>, cancellable: bool) returns (r: Result<nat, Error>)
      modifies this, buf
      ensures r.Ok? ==> r.value <= buf.Length && Payload(old(script)) == buf[..r.value] + Payload(script)
      ensures r.Ok? && r.value < buf.Length ==> script == []
      ensures r == Err(Cancelled) ==> cancellable && flag
      ensures old(flag) ==> flag
      ensures r.Ok? && !flag ==> r.value + Early(script) == Early(old(script))
      ensures cancellable && old(flag && script != [] && script[0].Tick?) && buf.Length > 0 ==> r == Err(Cancelled)
      ensures r == Err(Failed) ==> Break in old(script)
      ensures r.Ok? || r == Err(Cancelled) || r == Err(Failed)
      ensures Undisturbed(old(script), old(flag), cancellable) ==> r.Ok? && Undisturbed(script, flag, cancellable)
      ensures Break in script ==> Break in old(script)
    {
      ghost var payload := Payload(script);
      r := Ok(0);
      while r.value < buf.Length && script != []
        invariant r.Ok? && r.value <= buf.Length
        invariant payload == buf[..r.value] + Payload(script)
        invariant Undisturbed(old(script), old(flag), cancellable) ==> Undisturbed(script, flag, cancellable)
        invariant Break in script ==> Break in old(script)
        invariant old(flag) ==> flag
        invariant !flag ==> r.value + Early(script) == Early(old(script))
        invariant (script == old(script) && flag == old(flag)) || !(cancellable && old(flag && script != [] && script[0].Tick?))
        decreases buf.Length - r.value, |script|
      {
        r := ReadOrPoll(payload, buf, r.value, cancellable);
        if r.Err? {
          return;
        }
      }
    }
  }

  lemma InTurn(a: seq<Byte>, b: seq<Byte>, c: seq<Byte>)
    ensures a + (b + c) == a + b + c
  {
  }

  lemma OneLess(script: seq<Happening>, flag: bool, cancellable: bool)
    requires script != []
    ensures Undisturbed(script, flag, cancellable) ==>
              && Undisturbed(script[1..], flag, cancellable)
              && script[0] != Break && (cancellable ==> script[0] != SetFlag)
  {
    assert script[0] in script;
  }

  function Min(a: nat, b: nat): nat { if a < b then a else b }

  method Take(bytes: seq<Byte>, buf: array<Byte>, filled: nat) returns (n: nat)
    requires filled < buf.Length
    modifies buf
    ensures n == Min(|bytes|, buf.Length - filled)
    ensures buf[..filled + n] == old(buf[..filled]) + bytes[..n]
  {
    n := Min(|bytes|, buf.Length - filled);
    for i := 0 to n
      invariant buf[..filled + i] == old(buf[..filled]) + bytes[..i]
    {
      buf[filled + i] := bytes[i];
    }
  }

  /** The script once `n` bytes of its first arrival have been read. */
  function Remaining(script: seq<Happening>, n: nat): (rest: seq<Happening>)
    requires script != [] && script[0].Arrive? && n <= |script[0].bytes|
    ensures Payload(script) == script[0].bytes[..n] + Payload(rest)
    ensures |rest| <= |script|
    ensures forall flag, c :: Undisturbed(script, flag, c) ==> Undisturbed(rest, flag, c)
    ensures Break in rest ==> Break in script
    ensures Early(script) == n + Early(rest)
  {
    var bytes, rest := script[0].bytes, script[1..];
    assert bytes == bytes[..n] + bytes[n..];
    if n < |bytes| then
      assert ([Arrive(bytes[n..])] + rest)[1..] == rest;
      [Arrive(bytes[n..])] + rest
    else rest
  }

  // ---- Throttled reports ----

  /** Successive readings of a clock. */
  ghost predicate Monotone(clock: nat -> int) { forall i, j | i <= j :: clock(i) <= clock(j) }

  class ThrottledProgress {
    const clock: nat -> int
    const minInterval: nat
    const created: int
    var readings: nat
    var lastEmit: int
    var reports: seq<nat>
    /** Reports that were not forced. */
    ghost var regular: nat

    constructor (clock: nat -> int, readings: nat, minInterval: nat)
      requires Monotone(clock)
      ensures Valid() && reports == [] && regular == 0 && created == clock(readings)
      ensures this.clock == clock && this.minInterval == minInterval && this.readings == readings + 1
    {
      this.clock, this.minInterval := clock, minInterval;
      created, lastEmit := clock(readings), clock(readings) - minInterval;
      this.readings, reports, regular := readings + 1, [], 0;
    }

    /** Each regular report was an interval after the one before it. */
    ghost predicate Valid()
      reads this
    {
      && Monotone(clock)
      && created + (regular - 1) * minInterval <= lastEmit
      && readings > 0 && (lastEmit <= clock(readings - 1) || regular == 0) && created <= clock(readings - 1)
      && (reports == [] ==> lastEmit == created - minInterval)
    }

    /** At most two reports more than intervals have passed since the start. */
    ghost predicate Paced()
      requires readings > 0
      reads this
    {
      (|reports| - 2) * minInterval <= clock(readings - 1) - created
    }

    /** Reports when forced, or when an interval has passed since the last report; so the very
        first report is never held back. */
    method Report(transferred: nat, force: bool)
      requires Valid()
      modifies this
      ensures Valid()
      ensures reports == if force || old(clock(readings) - lastEmit >= minInterval) then old(reports) + [transferred] else old(reports)
      ensures reports != old(reports) ==> lastEmit == clock(readings - 1)
      ensures reports == old(reports) ==> lastEmit == old(lastEmit)
      ensures reports != []
      ensures regular == old(regular) + (if force then 0 else |reports| - |old(reports)|)
    {
      var due := force;
      if !force {
        var now := clock(readings);
        readings := readings + 1;
        due := now - lastEmit >= minInterval;
        assert clock(readings - 2) <= now;
      }
      if due {
        reports := reports + [transferred];
        lastEmit := clock(readings);
        readings := readings + 1;
        assert clock(readings - 2) <= lastEmit;
        if !force {
          OneMoreInterval(regular, minInterval);
          regular := regular + 1;
        } else {
          OneMoreInterval(regular, minInterval);
        }
      }
    }
  }

  lemma OneMoreInterval(n: int, interval: nat)
    ensures n * interval == (n - 1) * interval + interval
  {
  }

  /** Reports that never go down and never exceed what was written. */
  predicate Within(reports: seq<nat>, written: nat) {
    && (forall i, j | 0 <= i < j < |reports| :: reports[i] <= reports[j])
    && forall i | 0 <= i < |reports| :: reports[i] <= written
  }

  // ---- The copy ----

  class LocalFile {
    var contents: seq<Byte>
    const capacity: Option<nat>

    constructor (capacity: Option<nat>)
      ensures contents == [] && this.capacity == capacity
    {
      contents, this.capacity := [], capacity;
    }

    predicate Fits(bytes: seq<Byte>) { capacity.Some? ==> |bytes| <= capacity.value }

    /** `write_all`: what does not fit any more is not written, and the write fails. */
    method WriteAll(bytes: seq<Byte>) returns (ok: bool)
      requires Fits(contents)
      modifies this
      ensures Fits(contents) && old(contents) <= contents <= old(contents) + bytes
      ensures ok <==> Fits(old(contents) + bytes)
      ensures ok ==> contents == old(contents) + bytes
    {
      ok := Fits(contents + bytes);
      contents := contents + (if ok then bytes else bytes[..capacity.value - |contents|]);
    }
  }

  /** What holds between two chunks: every byte of the stream is written or in the `rest` still
      to come, and the reports so far are all regular and do not run ahead of the file. */
  ghost predicate Copying(payload: seq<Byte>, rest: seq<Byte>, file: LocalFile, progress: ThrottledProgress)
    reads file, progress
  {
    && payload == file.contents + rest
    && progress.Valid()
    && Within(progress.reports, |file.contents|)
    && |progress.reports| == progress.regular
    && (file.contents != [] ==> progress.reports != [])
  }

  /** What is left of it when the copy is given up: a prefix. */
  ghost predicate GivenUp(payload: seq<Byte>, file: LocalFile, progress: ThrottledProgress)
    reads file, progress
  {
    && file.contents <= payload
    && progress.Valid()
    && Within(progress.reports, |file.contents|)
    && |progress.reports| == progress.regular
  }

  /** A chunk goes into the file, and then into a report. */
  method WriteChunk(ghost payload: seq<Byte>, ghost rest: seq<Byte>, file: LocalFile, chunk: seq<Byte>,
                    progress: ThrottledProgress, transferred: nat)
      returns (ok: bool)
    requires Copying(payload, chunk + rest, file, progress) && transferred == |file.contents| + |chunk|
    requires file.Fits(file.contents)
    modifies file, progress
    ensures ok ==> Copying(payload, rest, file, progress) && |file.contents| == transferred && file.Fits(file.contents)
    ensures !ok ==> GivenUp(payload, file, progress) && !file.Fits(payload) && |file.contents| <= transferred
  {
    InTurn(file.contents, chunk, rest);
    ok := file.WriteAll(chunk);
    if ok {
      progress.Report(transferred, false);
    }
  }

  /** Nothing has been written but what arrived before the flag was set, and the chunk that was
      under way then. */
  ghost predicate InTime(written: nat, reader: Reader, early: nat, chunk: nat)
    reads reader
  {
    if reader.flag then written <= early + chunk else written + Early(reader.script) == early
  }

  /** One turn of the copy loop; the result is the number of bytes copied. */
  method CopyChunk(ghost payload: seq<Byte>, reader: Reader, file: LocalFile, buf: array<Byte>, cancellable: bool,
                   progress: ThrottledProgress, transferred: nat, ghost early: nat)
      returns (r: Result<nat, Error>)
    requires Copying(payload, Payload(reader.script), file, progress) && buf.Length > 0 && transferred == |file.contents|
    requires file.Fits(file.contents) && (cancellable ==> InTime(transferred, reader, early, buf.Length))
    modifies reader, file, buf, progress
    ensures cancellable && old(reader.flag) ==> r == Err(Cancelled) && file.contents == old(file.contents)
    ensures cancellable && r.Ok? ==> InTime(|file.contents|, reader, early, buf.Length)
    ensures cancellable && r.Err? ==> |file.contents| <= early + buf.Length
    ensures r.Ok? ==> Copying(payload, Payload(reader.script), file, progress) && file.Fits(file.contents)
    ensures r.Ok? ==> |file.contents| == transferred + r.value
    ensures r.Ok? && r.value == 0 ==> Payload(reader.script) == []
    ensures r.Err? ==> GivenUp(payload, file, progress)
    ensures r == Err(NoSpace) ==> !file.Fits(payload)
    ensures FailureExplained(r, cancellable, reader, old(reader.script))
    ensures Undisturbed(old(reader.script), old(reader.flag), cancellable) ==>
              (r.Ok? || r == Err(NoSpace)) && Undisturbed(reader.script, reader.flag, cancellable)
    ensures Break in reader.script ==> Break in old(reader.script)
  {
    var cancelled := reader.FlagIsSet();
    if cancellable && cancelled {
      return Err(Cancelled);
    }
    r := reader.ReadStreamChunk(buf, cancellable);
    if r.Ok? && r.value > 0 {
      var ok := WriteChunk(payload, Payload(reader.script), file, buf[..r.value], progress, transferred + r.value);
      if !ok {
        r := Err(NoSpace);
      }
    }
  }

  ghost predicate FailureExplained<T>(r: Result<T, Error>, cancellable: bool, reader: Reader, script: seq<Happening>)
    reads reader
  {
    && (r == Err(Cancelled) ==> cancellable && reader.flag)
    && (r == Err(Failed) ==> Break in script)
    && (r.Err? ==> !r.error.CommandFailed?)
  }

  /** The copy loop; the result is the number of bytes copied in all. */
  method CopyChunks(ghost payload: seq<Byte>, reader: Reader, file: LocalFile, buf: array<Byte>, cancellable: bool,
                    progress: ThrottledProgress)
      returns (r: Result<nat, Error>)
    requires Copying(payload, Payload(reader.script), file, progress) && buf.Length > 0 && file.contents == []
    modifies reader, file, buf, progress
    ensures cancellable && old(reader.flag) ==> r == Err(Cancelled) && file.contents == []
    ensures cancellable ==> |file.contents| <= Early(old(reader.script)) + buf.Length
    ensures r.Ok? ==> Copying(payload, [], file, progress) && r.value == |file.contents|
    ensures r.Err? ==> GivenUp(payload, file, progress)
    ensures r == Err(NoSpace) ==> !file.Fits(payload)
    ensures FailureExplained(r, cancellable, reader, old(reader.script))
    ensures Undisturbed(old(reader.script), old(reader.flag), cancellable) ==> r.Ok? || r == Err(NoSpace)
  {
    ghost var quiet, early := Undisturbed(reader.script, reader.flag, cancellable), Early(reader.script);
    var transferred := 0;
    while true
      invariant Copying(payload, Payload(reader.script), file, progress) && transferred == |file.contents|
      invariant file.Fits(file.contents)
      invariant cancellable ==> InTime(transferred, reader, early, buf.Length)
      invariant cancellable && old(reader.flag) ==> reader.flag && file.contents == []
      invariant quiet ==> Undisturbed(reader.script, reader.flag, cancellable)
      invariant Break in reader.script ==> Break in old(reader.script)
      decreases |payload| - |file.contents|
    {
      r := CopyChunk(payload, reader, file, buf, cancellable, progress, transferred, early);
      if r.Err? {
        return;
      }
      if r.value == 0 {
        break;
      }
      transferred := transferred + r.value;
    }
    r := Ok(transferred);
  }

  /** The forced report behind the loop. */
  method ReportEnd(ghost payload: seq<Byte>, file: LocalFile, progress: ThrottledProgress, transferred: nat)
    requires Copying(payload, [], file, progress) && transferred == |file.contents|
    modifies progress
    ensures file.contents == payload && Within(progress.reports, |file.contents|)
    ensures progress.reports != [] && progress.reports[|progress.reports| - 1] == |file.contents|
    ensures file.contents != [] ==> |progress.reports| >= 2
    ensures progress.readings > 0 && progress.Paced()
  {
    progress.Report(transferred, true);
    ReportsAreBounded(progress);
  }

  /** A copy that succeeds has written exactly the bytes of the stream, in order, however they
      arrived, and its last report is their number. A copy that fails or is cancelled has
      written a prefix of them, and all of them when only the exit status is to blame. Progress
      is reported before the end, reports never go down, and there are at most two more than
      intervals have passed. A copy that nothing disturbs succeeds; one whose flag is set stops
      within a chunk, and at once when it was set before. */
  method StreamToFile(reader: Reader, file: LocalFile, chunk: nat, cancellable: bool, clock: nat -> int, minInterval: nat,
                      exit: Option<nat>)
      returns (r: Result<(), Error>, progress: ThrottledProgress)
    requires chunk > 0 && Monotone(clock)
    modifies reader, file
    ensures r.Ok? ==> exit == Some(0)
    ensures r.Ok? || r.error.CommandFailed? ==>
              file.contents == Payload(old(reader.script))
              && progress.reports != [] && progress.reports[|progress.reports| - 1] == |file.contents|
              && (file.contents != [] ==> |progress.reports| >= 2)
    ensures file.contents <= Payload(old(reader.script))
    ensures r == Err(Cancelled) ==> cancellable && reader.flag
    ensures cancellable && old(reader.flag) ==> r == Err(Cancelled) && file.contents == []
    ensures cancellable ==> |file.contents| <= Early(old(reader.script)) + chunk
    ensures r == Err(Failed) ==> Break in old(reader.script)
    ensures r == Err(NoSpace) ==> !file.Fits(Payload(old(reader.script)))
    ensures r.Err? && r.error.CommandFailed? ==> r.error.status == exit != Some(0)
    ensures Undisturbed(old(reader.script), old(reader.flag), cancellable) && exit == Some(0) ==> r.Ok? || r == Err(NoSpace)
    ensures Within(progress.reports, |file.contents|)
    ensures progress.clock == clock && progress.minInterval == minInterval && progress.created == clock(0)
    ensures progress.readings > 0 && progress.Paced()
  {
    file.contents := [];
    progress := new ThrottledProgress(clock, 0, minInterval);
    var buf := new Byte[chunk](_ => 0);
    ghost var payload := Payload(reader.script);
    var copied := CopyChunks(payload, reader, file, buf, cancellable, progress);
    if copied.Err? {
      ReportsAreBounded(progress);
      return Err(copied.error), progress;
    }
    ReportEnd(payload, file, progress, copied.value);
    r := if exit == Some(0) then Ok(()) else Err(CommandFailed(exit));
  }

  lemma ReportsAreBounded(p: ThrottledProgress)
    requires p.Valid() && |p.reports| <= p.regular + 1
    ensures p.Paced()
  {
    var n, m, i := |p.reports| - 2, p.regular - 1, p.minInterval;
    assert n * i <= m * i by { assert n <= m; MulMonotone(n, m, i); }
  }

  lemma MulMonotone(n: int, m: int, i: nat)
    requires n <= m
    ensures n * i <= m * i
  {
  }

  /** Counted in whole intervals: at most 2 + elapsed / interval reports. */
  lemma ReportsPerInterval(reports: nat, interval: nat, elapsed: nat)
    requires interval > 0 && (reports - 2) * interval <= elapsed
    ensures reports <= 2 + elapsed / interval
  {
    if reports - 2 > elapsed / interval {
      MulMonotone(elapsed / interval + 1, reports - 2, interval);
    }
  }
}
