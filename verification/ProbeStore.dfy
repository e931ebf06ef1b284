/**
 * The file-backed probe cache: Save sorts, writes a uniquely named temporary file and renames it;
 * Load reads the whole file back. JSON is modelled as the record it carries.
 */
module ProbeStore {
  import opened Common
  import opened Ordering
  import opened Probes

  datatype DiskResult = DiskResult(bundleID: string, outcome: string, detail: string, at: int)

  datatype DiskFile = DiskFile(udid: string, savedAt: int, results: seq<DiskResult>)

  /** Torn is anything short of a complete payload, such as a freshly created or half-written file. */
  datatype Content = Torn | Whole(disk: DiskFile)

  /** The final file of a device, or a temporary name drawn by os.CreateTemp. */
  datatype Name = Final(udid: string) | Temp(udid: string, nonce: nat)

  type Files = map<Name, Content>

  function OutcomeString(o: ProbeOutcome): string {
    match o
    case Vended => "vended"
    case Refused => "refused"
    case ProbeError => "error"
    case Unknown => "unknown"
  }

  function ParseOutcome(s: string): ProbeOutcome {
    if s == "vended" then Vended
    else if s == "refused" then Refused
    else if s == "error" then ProbeError
    else Unknown
  }

  /**
   * Each outcome has its own word on disk; reading it gives the outcome back, and any other word reads
   * as unknown.
   */
  lemma OutcomeRoundTrip(o: ProbeOutcome, s: string)
    ensures ParseOutcome(OutcomeString(o)) == o
    ensures OutcomeString(ParseOutcome(s)) == s <==> s in ["vended", "refused", "error", "unknown"]
    ensures o == ParseOutcome(s) && o != Unknown <==>
      (o == Vended && s == "vended") || (o == Refused && s == "refused") || (o == ProbeError && s == "error")
  {
    assert "vended"[0] == 'v' && "refused"[0] == 'r' && "error"[0] == 'e' && "unknown"[0] == 'u';
  }

  function ToDisk(r: ProbeResult): DiskResult {
    DiskResult(r.bundleID, OutcomeString(r.outcome), r.detail, r.at)
  }

  function FromDisk(d: DiskResult): ProbeResult {
    ProbeResult(d.bundleID, ParseOutcome(d.outcome), d.detail, d.at)
  }

  function AllToDisk(rs: seq<ProbeResult>): seq<DiskResult> {
    seq(|rs|, i requires 0 <= i < |rs| => ToDisk(rs[i]))
  }

  function AllFromDisk(ds: seq<DiskResult>): seq<ProbeResult> {
    seq(|ds|, i requires 0 <= i < |ds| => FromDisk(ds[i]))
  }

  lemma DiskRoundTrip(rs: seq<ProbeResult>)
    ensures AllFromDisk(AllToDisk(rs)) == rs
    ensures forall i :: 0 <= i < |rs| ==> ReadsAs(AllToDisk(rs)[i], rs[i])
  {
    forall i | 0 <= i < |rs|
      ensures AllFromDisk(AllToDisk(rs))[i] == rs[i] && ReadsAs(AllToDisk(rs)[i], rs[i])
    {
      OutcomeRoundTrip(rs[i].outcome, "");
      ToDiskReads(rs[i]);
    }
  }

  /** What Load returns for a given content of the final file. */
  function Loaded(files: Files, udid: string): Result<seq<ProbeResult>, Error> {
    if Final(udid) !in files then Ok([])
    else match files[Final(udid)]
      case Torn => Err("probe store: parse")
      case Whole(disk) => Ok(AllFromDisk(disk.results))
  }

  /** The system's operations, each of which may fail. */
  datatype Op = Mkdir | Marshal | CreateTemp | WriteTemp | CloseTemp | RenameTemp | Unlink | ReadFile

  datatype Done = Done(op: Op, ok: bool)

  /** The operations of a save, in order. */
  function SaveOps(): seq<Op> {
    [Mkdir, Marshal, CreateTemp, WriteTemp, CloseTemp, RenameTemp]
  }

  function Succeeded(n: nat): seq<Done>
    requires n <= 6
  {
    seq(n, i requires 0 <= i < n => Done(SaveOps()[i], true))
  }

  /** The first n operations of a save succeeded; a next one failed, and an existing temporary file was then removed or not. */
  function SaveLog(n: nat, removed: bool): seq<Done>
    requires n <= 6
  {
    Succeeded(n)
    + (if n < 6 then [Done(SaveOps()[n], false)] else [])
    + (if 3 <= n < 6 then [Done(Unlink, removed)] else [])
  }

  /**
   * What a save leaves after n successful operations: the whole payload in the device's final file, or
   * the files as they were, but for a temporary file whose removal failed.
   */
  ghost predicate SaveOutcome(before: Files, after: Files, disk: DiskFile, n: nat, leaked: Option<Name>) {
    && n <= 6
    && (n == 6 ==> leaked.None? && after == before[Final(disk.udid) := Whole(disk)])
    && (n < 6 && leaked.None? ==> after == before)
    && (leaked.Some? ==>
          3 <= n && leaked.value.Temp? && leaked.value.udid == disk.udid
          && leaked.value !in before && leaked.value in after && after - {leaked.value} == before)
  }

  /** The rename moves the temporary file over the final one. */
  lemma RenamedOutcome(before: Files, tmp: Name, disk: DiskFile)
    requires tmp.Temp? && tmp !in before
    ensures var files := before[tmp := Whole(disk)];
      SaveOutcome(before, (files - {tmp})[Final(disk.udid) := files[tmp]], disk, 6, None)
  {
    var files := before[tmp := Whole(disk)];
    assert files - {tmp} == before;
  }

  lemma FailedOutcome(before: Files, tmp: Name, content: Content, disk: DiskFile, n: nat, removed: bool)
    requires tmp.Temp? && tmp !in before && tmp.udid == disk.udid && 3 <= n < 6
    ensures var files := before[tmp := content];
      SaveOutcome(before, if removed then files - {tmp} else files, disk, n, if removed then None else Some(tmp))
  {
    var files := before[tmp := content];
    assert files - {tmp} == before;
  }

  /** A row of the file as it is read. */
  predicate ReadsAs(d: DiskResult, r: ProbeResult) {
    && r.bundleID == d.bundleID && r.detail == d.detail && r.at == d.at
    && (r.outcome == Vended <==> d.outcome == "vended")
    && (r.outcome == Refused <==> d.outcome == "refused")
    && (r.outcome == ProbeError <==> d.outcome == "error")
  }

  lemma FromDiskReads(d: DiskResult)
    ensures ReadsAs(d, FromDisk(d))
  {
    OutcomeRoundTrip(ParseOutcome(d.outcome), d.outcome);
    OutcomeRoundTrip(Vended, d.outcome);
    OutcomeRoundTrip(Refused, d.outcome);
    OutcomeRoundTrip(ProbeError, d.outcome);
  }

  lemma ToDiskReads(r: ProbeResult)
    ensures ReadsAs(ToDisk(r), r)
  {
    OutcomeRoundTrip(r.outcome, "");
    FromDiskReads(ToDisk(r));
  }

  lemma SaveLogStep(log: seq<Done>, n: nat, ok: bool)
    requires n < 6
    ensures ok ==> log + SaveLog(n + 1, false)[..n + 1] == (log + SaveLog(n, false)[..n]) + [Done(SaveOps()[n], true)]
    ensures !ok && n < 3 ==> log + SaveLog(n, true) == (log + SaveLog(n, false)[..n]) + [Done(SaveOps()[n], false)]
    ensures forall removed :: !ok && n >= 3 ==>
      log + SaveLog(n, removed) == ((log + SaveLog(n, false)[..n]) + [Done(SaveOps()[n], false)]) + [Done(Unlink, removed)]
  {
    assert SaveLog(n + 1, false)[..n + 1] == SaveLog(n, false)[..n] + [Done(SaveOps()[n], true)];
    forall removed
      ensures SaveLog(n, removed)
           == SaveLog(n, false)[..n] + [Done(SaveOps()[n], false)] + if n >= 3 then [Done(Unlink, removed)] else []
    {
    }
  }

  /** The log says whether the save went through. */
  lemma SavedIff(log: seq<Done>, n: nat, removed: bool)
    requires n <= 6
    ensures log + SaveLog(n, removed) == log + SaveLog(6, true) <==> n == 6
  {
    if n < 6 {
      var k := |log| + n;
      assert (log + SaveLog(n, removed))[k] == Done(SaveOps()[n], false);
      assert (log + SaveLog(6, true))[k] == Done(SaveOps()[n], true);
    } else {
      assert SaveLog(6, removed) == SaveLog(6, true);
    }
  }

  /** `log` records the operations; only the system extends it. */
  class FileProbeStore {
    var files: Files
    ghost var log: seq<Done>

    constructor (fs: Files)
      ensures files == fs && log == []
    {
      files := fs;
      log := [];
    }

    /** One operation of the system. */
    method Try(op: Op) returns (ok: bool)
      modifies this`log
      ensures log == old(log) + [Done(op, ok)]
    {
      ok := *;
      log := log + [Done(op, ok)];
    }

    /** slices.SortFunc on a copy: some sorted permutation, not necessarily the stable one. */
    method SortByBundle(results: seq<ProbeResult>) returns (sorted: seq<ProbeResult>)
      ensures SortedPermutation(ByBundle(), results, sorted)
    {
      ByBundleIsPreorder();
      SortIsPermutation(ByBundle(), results);
      sorted := StableSort(ByBundle(), results);
    }

    /** os.CreateTemp: a name that no file has. */
    method FreshName(udid: string) returns (tmp: Name)
      ensures tmp.Temp? && tmp.udid == udid && tmp !in files
    {
      var n := 0;
      ghost var left := files.Keys;
      while Temp(udid, n) in files
        invariant forall k: nat :: k >= n && Temp(udid, k) in files ==> Temp(udid, k) in left
        decreases left
      {
        left := left - {Temp(udid, n)};
        n := n + 1;
      }
      tmp := Temp(udid, n);
    }

    /** The rows of the file, for a sorted copy. */
    method Rows(copy: seq<ProbeResult>) returns (rows: seq<DiskResult>)
      ensures rows == AllToDisk(copy)
    {
      rows := [];
      var i := 0;
      while i < |copy|
        invariant 0 <= i <= |copy|
        invariant rows == AllToDisk(copy[..i])
      {
        rows := rows + [ToDisk(copy[i])];
        i := i + 1;
      }
      TakeAll(copy, i);
    }

    /**
     * On success, which is when all of its operations succeed, the final file holds the whole sorted
     * payload and nothing else changed. On failure every file is as before, save for the temporary file
     * if removing it failed too. `n` is how many operations succeeded.
     */
    method Save(udid: string, results: seq<ProbeResult>, now: int)
        returns (err: Option<Error>, ghost sorted: seq<ProbeResult>, ghost n: nat, ghost leaked: Option<Name>)
      modifies this
      ensures SortedPermutation(ByBundle(), results, sorted)
      ensures SaveOutcome(old(files), files, DiskFile(udid, now, AllToDisk(sorted)), n, leaked)
      ensures log == old(log) + SaveLog(n, leaked.None?)
      ensures err.None? <==> n == 6
    {
      ghost var log0 := log;
      leaked := None;
      n := 0;
      var copy := SortByBundle(results);
      sorted := copy;
      assert log0 + SaveLog(0, false)[..0] == log;
      var ok := Try(Mkdir);
      SaveLogStep(log0, 0, ok);
      if !ok {
        return Some("probe store: mkdir"), sorted, 0, None;
      }
      var rows := Rows(copy);
      var disk := DiskFile(udid, now, rows);
      ok := Try(Marshal);
      SaveLogStep(log0, 1, ok);
      if !ok {
        return Some("probe store: marshal"), sorted, 1, None;
      }
      ok := Try(CreateTemp);
      SaveLogStep(log0, 2, ok);
      if !ok {
        return Some("probe store: create tmp"), sorted, 2, None;
      }
      err, n, leaked := WriteAndRename(udid, disk, log0);
    }

    /** From a freshly created temporary file on. */
    method WriteAndRename(udid: string, disk: DiskFile, ghost log0: seq<Done>)
        returns (err: Option<Error>, ghost n: nat, ghost leaked: Option<Name>)
      requires disk.udid == udid && log == log0 + SaveLog(3, false)[..3]
      modifies this
      ensures SaveOutcome(old(files), files, disk, n, leaked) && n >= 3
      ensures log == log0 + SaveLog(n, leaked.None?)
      ensures err.None? <==> n == 6
    {
      var tmpName := FreshName(udid);
      ghost var before := files;
      files := files[tmpName := Torn];
      var ok := Try(WriteTemp);
      SaveLogStep(log0, 3, ok);
      if !ok {
        var removed := RemoveTemp(tmpName);
        FailedOutcome(before, tmpName, Torn, disk, 3, removed);
        return Some("probe store: write tmp"), 3, if removed then None else Some(tmpName);
      }
      files := files[tmpName := Whole(disk)];
      assert files == before[tmpName := Whole(disk)];
      ok := Try(CloseTemp);
      SaveLogStep(log0, 4, ok);
      if !ok {
        var removed := RemoveTemp(tmpName);
        FailedOutcome(before, tmpName, Whole(disk), disk, 4, removed);
        return Some("probe store: close tmp"), 4, if removed then None else Some(tmpName);
      }
      ok := Try(RenameTemp);
      SaveLogStep(log0, 5, ok);
      if !ok {
        var removed := RemoveTemp(tmpName);
        FailedOutcome(before, tmpName, Whole(disk), disk, 5, removed);
        return Some("probe store: rename"), 5, if removed then None else Some(tmpName);
      }
      files := (files - {tmpName})[Final(udid) := files[tmpName]];
      RenamedOutcome(before, tmpName, disk);
      assert SaveLog(6, true) == SaveLog(6, false)[..6];
      return None, 6, None;
    }

    method RemoveTemp(tmpName: Name) returns (removed: bool)
      modifies this
      ensures files == if removed then old(files) - {tmpName} else old(files)
      ensures log == old(log) + [Done(Unlink, removed)]
    {
      removed := Try(Unlink);
      if removed {
        files := files - {tmpName};
      }
    }

    /** Only a failed read of an existing file or a torn one is an error; no file is an empty list. */
    method Load(udid: string) returns (r: Result<seq<ProbeResult>, Error>)
      modifies this`log
      ensures Final(udid) !in files ==> r == Ok([]) && log == old(log)
      ensures Final(udid) in files ==>
        && (log == old(log) + [Done(ReadFile, true)] || log == old(log) + [Done(ReadFile, false)])
        && (r.Err? <==> log == old(log) + [Done(ReadFile, false)] || files[Final(udid)].Torn?)
      ensures Final(udid) in files && r.Ok? ==>
        var rows := files[Final(udid)].disk.results;
        |r.value| == |rows| && forall i :: 0 <= i < |rows| ==> ReadsAs(rows[i], r.value[i])
      ensures r.Ok? ==> r == Loaded(files, udid)
      ensures Loaded(files, udid).Err? ==> r.Err?
    {
      if Final(udid) !in files {
        return Ok([]);
      }
      var ok := Try(ReadFile);
      if !ok {
        return Err("probe store: read");
      }
      assert log != old(log) + [Done(ReadFile, false)] by {
        assert log[|old(log)|] == Done(ReadFile, true);
      }
      var raw := files[Final(udid)];
      if raw.Torn? {
        return Err("probe store: parse");
      }
      var out := Decode(raw.disk.results);
      r := Ok(out);
    }

    method Decode(rows: seq<DiskResult>) returns (out: seq<ProbeResult>)
      ensures out == AllFromDisk(rows)
      ensures forall i :: 0 <= i < |rows| ==> ReadsAs(rows[i], out[i])
    {
      out := [];
      var i := 0;
      while i < |rows|
        invariant 0 <= i <= |rows|
        invariant out == AllFromDisk(rows[..i])
        invariant forall k :: 0 <= k < i ==> ReadsAs(rows[k], out[k])
      {
        FromDiskReads(rows[i]);
        out := out + [FromDisk(rows[i])];
        i := i + 1;
      }
      TakeAll(rows, i);
    }
  }

  /** Load after Save returns what was saved, sorted by bundle ID, outcomes intact. */
  lemma SaveLoadRoundTrip(files: Files, udid: string, now: int, results: seq<ProbeResult>, sorted: seq<ProbeResult>)
    requires SortedPermutation(ByBundle(), results, sorted)
    ensures Loaded(files[Final(udid) := Whole(DiskFile(udid, now, AllToDisk(sorted)))], udid) == Ok(sorted)
  {
    DiskRoundTrip(sorted);
  }

  /** Saving for one device does not change what is loaded for another. */
  lemma SaveIsPerDevice(files: Files, udid: string, other: string, content: Content)
    requires udid != other
    ensures Loaded(files[Final(udid) := content], other) == Loaded(files, other)
  {
  }
}
