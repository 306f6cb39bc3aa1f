/** One task's download: up to two rounds over its candidate URLs, stopping at
    the first attempt that both fetches the file and lands it in the target
    directory.  The network and the file system are oracles: `fetchOk[k]`
    says whether the k-th attempt's request delivers a body, `writeOk[k]`
    whether writing that body would succeed, and `files` is the set of names
    already in the directory. */
module Download {
  import opened Text
  import Naming

  /** `downloadTask` makes this many passes over the candidates. */
  const MaxRounds: nat := 2

  /** `'ok'`, `'skip'`, or the exception thrown after the last attempt. */
  datatype DownloadResult = Ok | Skip | Failed

  /** How writing a fetched body goes: the write completes, it fails before
      the file exists (`getFileHandle` throws), or it fails once
      `getFileHandle(name, {create: true})` has created the file, which then
      stays behind empty (`createWritable`, `write` or `close` throws). */
  datatype WriteFault = Completes | FailsBeforeCreate | FailsAfterCreate

  /** What `writeBlobToFile` does with a fetched body: the directory
      afterwards, whether the call answered or threw. */
  datatype WriteOutcome = Written(files: set<string>) | AlreadyExists | WriteError(files: set<string>)

  /** `writeBlobToFile`: a name already present is left alone (the call
      answers `false`); otherwise the file is created and written, or the
      write throws, leaving the created file behind when it got that far. */
  function WriteBlobToFile(files: set<string>, name: string, fault: WriteFault): (w: WriteOutcome)
    ensures w == AlreadyExists <==> name in files
    ensures w.Written? <==> name !in files && fault.Completes?
    ensures w.Written? ==> w.files == files + {name} && |w.files| == |files| + 1
    ensures w.WriteError? ==> name !in files && !fault.Completes?
    ensures w.WriteError? && fault.FailsAfterCreate? ==> w.files == files + {name}
    ensures w.WriteError? && fault.FailsBeforeCreate? ==> w.files == files
  {
    if name in files then AlreadyExists
    else match fault
      case Completes => Written(files + {name})
      case FailsBeforeCreate => WriteError(files)
      case FailsAfterCreate => WriteError(files + {name})
  }

  /** The number of attempts two full rounds make. */
  function MaxAttempts(candidates: seq<string>): (n: nat)
    ensures n == MaxRounds * |candidates|
  {
    |candidates| + |candidates|
  }

  /** The URL the k-th attempt asks for: the candidates in order, once per
      round, that is `candidates[k mod |candidates|]`. */
  function AttemptUrl(candidates: seq<string>, k: nat): (url: string)
    requires k < MaxAttempts(candidates)
    ensures url == candidates[k % |candidates|]
  {
    if k < |candidates| then candidates[k] else candidates[k - |candidates|]
  }

  /** Whether the file is in the directory when attempt k looks for it: it
      was there from the start, or an earlier attempt fetched its body and
      created the file before its write failed. */
  predicate PresentAt(present: bool, fetchOk: seq<bool>, writes: seq<WriteFault>, k: nat)
    requires k <= |fetchOk| && k <= |writes|
  {
    if k == 0 then present
    else PresentAt(present, fetchOk, writes, k - 1) || (fetchOk[k - 1] && writes[k - 1].FailsAfterCreate?)
  }

  /** Once there, the file stays. */
  lemma {:induction false} PresentAtMonotone(present: bool, fetchOk: seq<bool>, writes: seq<WriteFault>, j: nat, k: nat)
    requires j <= k <= |fetchOk| && k <= |writes|
    requires PresentAt(present, fetchOk, writes, j)
    ensures PresentAt(present, fetchOk, writes, k)
    decreases k - j
  {
    if j < k {
      PresentAtMonotone(present, fetchOk, writes, j, k - 1);
    }
  }

  /** A file there from the start is there at every attempt. */
  lemma PresentFromStart(present: bool, fetchOk: seq<bool>, writes: seq<WriteFault>, k: nat)
    requires k <= |fetchOk| && k <= |writes|
    ensures present ==> PresentAt(present, fetchOk, writes, k)
  {
    if present {
      PresentAtMonotone(present, fetchOk, writes, 0, k);
    }
  }

  /** Attempt k ends the call: its fetch succeeds and then either the file is
      there by now or the write goes through. */
  predicate Succeeds(fetchOk: seq<bool>, writes: seq<WriteFault>, present: bool, k: nat)
    requires k < |fetchOk| && k < |writes|
  {
    fetchOk[k] && (PresentAt(present, fetchOk, writes, k) || writes[k].Completes?)
  }

  /** The first of the first `n` attempts that ends the call, if any. */
  function FirstSuccess(fetchOk: seq<bool>, writes: seq<WriteFault>, present: bool, n: nat): (r: Option<nat>)
    requires n <= |fetchOk| && n <= |writes|
    ensures r.Some? ==> r.value < n && Succeeds(fetchOk, writes, present, r.value)
    ensures r.Some? ==> forall k :: 0 <= k < r.value ==> !Succeeds(fetchOk, writes, present, k)
    ensures r.None? ==> forall k :: 0 <= k < n ==> !Succeeds(fetchOk, writes, present, k)
    decreases n
  {
    if n == 0 then None
    else match FirstSuccess(fetchOk, writes, present, n - 1)
      case Some(k) => Some(k)
      case None => if Succeeds(fetchOk, writes, present, n - 1) then Some(n - 1) else None
  }

  /** Looking at more attempts does not move a success already found. */
  lemma {:induction false} FirstSuccessStable(fetchOk: seq<bool>, writes: seq<WriteFault>, present: bool, n: nat, m: nat)
    requires n <= m <= |fetchOk| && m <= |writes|
    requires FirstSuccess(fetchOk, writes, present, n).Some?
    ensures FirstSuccess(fetchOk, writes, present, m) == FirstSuccess(fetchOk, writes, present, n)
    decreases m - n
  {
    if n < m {
      FirstSuccessStable(fetchOk, writes, present, n, m - 1);
    }
  }

  /** The directory with the task's file added when `added` holds. */
  function WithFile(files: set<string>, name: string, added: bool): (r: set<string>)
    ensures files <= r && |r| <= |files| + 1
    ensures name in r <==> name in files || added
    ensures forall x :: x in r && x != name ==> x in files
  {
    if added then files + {name} else files
  }

  /** What one call of `downloadTask` amounts to: its result, the directory
      afterwards, and how many attempts it made. */
  datatype Outcome = Outcome(result: DownloadResult, files: set<string>, attempts: nat)

  /** Reference definition by search: the call ends at the first attempt that
      succeeds; with none among the two rounds it fails after all of them.
      The directory gains the task's file when an attempt writes it, and also
      when a failed write has left it behind; such a leftover file makes any
      later successful fetch a skip. */
  function DownloadOutcome(candidates: seq<string>, filename: string, files: set<string>,
                           fetchOk: seq<bool>, writes: seq<WriteFault>): (o: Outcome)
    requires |fetchOk| >= MaxAttempts(candidates) && |writes| >= MaxAttempts(candidates)
    ensures o.attempts <= MaxAttempts(candidates)
    ensures var present := Naming.SanitizeFileName(filename) in files;
            o.result == Failed <==>
              forall k :: 0 <= k < MaxAttempts(candidates) ==> !Succeeds(fetchOk, writes, present, k)
    ensures o.result == Failed ==> o.attempts == MaxAttempts(candidates)
    ensures var present := Naming.SanitizeFileName(filename) in files;
            o.result != Failed ==>
              o.attempts >= 1
              && fetchOk[o.attempts - 1]
              && Succeeds(fetchOk, writes, present, o.attempts - 1)
              && forall k :: 0 <= k < o.attempts - 1 ==> !Succeeds(fetchOk, writes, present, k)
    ensures var present := Naming.SanitizeFileName(filename) in files;
            o.result == Skip <==> o.result != Failed && PresentAt(present, fetchOk, writes, o.attempts - 1)
    ensures o.result == Ok ==> Naming.SanitizeFileName(filename) !in files
                               && o.files == files + {Naming.SanitizeFileName(filename)}
                               && |o.files| == |files| + 1
    ensures var present := Naming.SanitizeFileName(filename) in files;
            o.result != Ok ==>
              o.files == WithFile(files, Naming.SanitizeFileName(filename),
                                  PresentAt(present, fetchOk, writes, o.attempts))
  {
    var name := Naming.SanitizeFileName(filename);
    var present := name in files;
    match FirstSuccess(fetchOk, writes, present, MaxAttempts(candidates))
    case None =>
      Outcome(Failed, WithFile(files, name, PresentAt(present, fetchOk, writes, MaxAttempts(candidates))),
              MaxAttempts(candidates))
    case Some(k) =>
      PresentFromStart(present, fetchOk, writes, k);
      if PresentAt(present, fetchOk, writes, k) then Outcome(Skip, WithFile(files, name, true), k + 1)
      else Outcome(Ok, files + {name}, k + 1)
  }

  /** A write that fails after creating the file turns the retry into a
      skip: for a task with a single URL whose first write fails that way and
      whose second fetch succeeds, the call answers `'skip'` and the empty
      file stays in the directory. */
  lemma FailedWriteThenSkip(url: string, filename: string, files: set<string>)
    requires Naming.SanitizeFileName(filename) !in files
    ensures DownloadOutcome([url], filename, files, [true, true], [FailsAfterCreate, Completes])
            == Outcome(Skip, files + {Naming.SanitizeFileName(filename)}, 2)
  {
    var present := Naming.SanitizeFileName(filename) in files;
    assert !Succeeds([true, true], [FailsAfterCreate, Completes], present, 0);
    assert PresentAt(present, [true, true], [FailsAfterCreate, Completes], 1);
  }

  /** `downloadTask`: for each of the two rounds, each candidate in order,
      fetch it and write it under the sanitised file name; the first attempt
      that gets that far returns `Skip` (the file is there) or `Ok`; a failed
      fetch or write moves on to the next attempt, and when every attempt has
      failed the call fails.  Each write looks at the directory as the
      earlier attempts left it.  `tried` lists the URLs requested. */
  method DownloadTask(candidates: seq<string>, filename: string, files: set<string>,
                      fetchOk: seq<bool>, writes: seq<WriteFault>)
    returns (result: DownloadResult, files': set<string>, tried: seq<string>)
    requires |fetchOk| >= MaxAttempts(candidates) && |writes| >= MaxAttempts(candidates)
    ensures Outcome(result, files', |tried|) == DownloadOutcome(candidates, filename, files, fetchOk, writes)
    ensures |tried| <= MaxAttempts(candidates)
    ensures forall k :: 0 <= k < |tried| ==> tried[k] == AttemptUrl(candidates, k)
  {
    var name := Naming.SanitizeFileName(filename);
    var present := name in files;
    result := Failed;
    files' := files;
    tried := [];
    var done := false;
    var round := 1;
    while round <= MaxRounds && !done
      invariant 1 <= round <= MaxRounds + 1
      invariant !done ==> |tried| == (if round == 1 then 0 else if round == 2 then |candidates| else MaxAttempts(candidates))
      invariant SoFar(candidates, name, files, fetchOk, writes, done, result, files', tried)
      decreases MaxRounds + 1 - round
    {
      var i := 0;
      while i < |candidates| && !done
        invariant 0 <= i <= |candidates|
        invariant !done ==> |tried| == (if round == 1 then 0 else |candidates|) + i
        invariant SoFar(candidates, name, files, fetchOk, writes, done, result, files', tried)
        decreases |candidates| - i
      {
        done, result, files', tried := TryOnce(candidates, name, files, fetchOk, writes, files', tried, candidates[i]);
        i := i + 1;
      }
      round := round + 1;
    }
    if done {
      FirstSuccessStable(fetchOk, writes, present, |tried|, MaxAttempts(candidates));
    }
  }

  /** One attempt: fetch the next URL and, when that succeeds, write the
      body under `name` into the directory as it is now (`current`). */
  method TryOnce(candidates: seq<string>, name: string, files: set<string>, fetchOk: seq<bool>,
                 writes: seq<WriteFault>, current: set<string>, tried: seq<string>, url: string)
    returns (done: bool, result: DownloadResult, files': set<string>, tried': seq<string>)
    requires |fetchOk| >= MaxAttempts(candidates) && |writes| >= MaxAttempts(candidates)
    requires SoFar(candidates, name, files, fetchOk, writes, false, Failed, current, tried)
    requires |tried| < MaxAttempts(candidates) && url == AttemptUrl(candidates, |tried|)
    ensures tried' == tried + [url]
    ensures done <==> Succeeds(fetchOk, writes, name in files, |tried|)
    ensures SoFar(candidates, name, files, fetchOk, writes, done, result, files', tried')
  {
    var k := |tried|;
    PresentFromStart(name in files, fetchOk, writes, k);
    tried' := tried + [url];
    done, result, files' := false, Failed, current;
    if fetchOk[k] {
      match WriteBlobToFile(current, name, writes[k])
      case AlreadyExists =>
        result := Skip;
        done := true;
      case Written(f) =>
        result := Ok;
        files' := f;
        done := true;
      case WriteError(f) =>
        files' := f;
    }
  }

  /** The state of `downloadTask` between attempts: `tried` lists the URLs
      asked for so far; until an attempt succeeds the call has nothing to show
      but the files failed writes left behind, and once one does, it is the
      first success and its result stands. */
  predicate SoFar(candidates: seq<string>, name: string, files: set<string>, fetchOk: seq<bool>,
                  writes: seq<WriteFault>, done: bool, result: DownloadResult, files': set<string>,
                  tried: seq<string>)
    requires |fetchOk| >= MaxAttempts(candidates) && |writes| >= MaxAttempts(candidates)
  {
    |tried| <= MaxAttempts(candidates)
    && (forall k :: 0 <= k < |tried| ==> tried[k] == AttemptUrl(candidates, k))
    && (!done ==>
          FirstSuccess(fetchOk, writes, name in files, |tried|).None? && result == Failed
          && files' == WithFile(files, name, PresentAt(name in files, fetchOk, writes, |tried|)))
    && (done ==> |tried| >= 1 && FirstSuccess(fetchOk, writes, name in files, |tried|) == Some(|tried| - 1))
    && (done ==> result != Failed
                 && (result == Skip <==> PresentAt(name in files, fetchOk, writes, |tried| - 1)))
    && (done ==> files' == WithFile(files, name, result == Ok || PresentAt(name in files, fetchOk, writes, |tried| - 1)))
  }
}
