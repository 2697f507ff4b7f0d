/** The atomic file writer as a state machine over an operating system whose calls may fail.
    Nobody else touches the temporary file. */
module AtomicWriter {
  import opened Kube

  type Files = map<string, Bytes>

  /** An open or closed descriptor of the temporary file, with its offset. */
  datatype TempFile = TempFile(name: string, offset: nat, open: bool)

  /** Bytes written at an offset; a hole left by a truncation reads as zeros. Writing nothing
      changes nothing. */
  function WriteAt(old_: Bytes, offset: nat, content: Bytes): Bytes {
    if content == [] then old_
    else
      var base := if offset <= |old_| then old_[..offset] else old_ + seq(offset - |old_|, _ => 0 as byte);
      base + content + (if offset + |content| <= |old_| then old_[offset + |content|..] else [])
  }

  /** The file system and the writer's temporary file. */
  datatype World = World(files: Files, temp: Option<TempFile>)

  /** How a cleanup ends: the temporary file is removed; or it stays, emptied; or neither
      succeeded. A call that cleans nothing up ends like a removal. */
  datatype Cleaning = Removed | Truncated | Stuck

  ghost predicate CleanStep(a: World, b: World, how: Cleaning) {
    if a.temp.None? then b == a && how == Removed
    else
      var name := a.temp.value.name;
      match how
      case Removed => b == World(a.files - {name}, None)
      case Truncated => b == World(a.files[name := []], a.temp)
      case Stuck => b == a
  }

  /** The world in which a write finds its temporary file. */
  ghost predicate Opened(path: string, a: World, mid: World) {
    if a.temp.Some? then mid == a
    else
      && mid.temp.Some? && mid.temp.value.name !in a.files && mid.temp.value.name != path
      && mid == World(a.files[mid.temp.value.name := []], Some(TempFile(mid.temp.value.name, 0, true)))
  }

  /** `n` bytes of the content reach the temporary file. */
  function Reached(mid: World, content: Bytes, n: nat): World
    requires mid.temp.Some? && mid.temp.value.name in mid.files && n <= |content|
  {
    var t := mid.temp.value;
    World(mid.files[t.name := WriteAt(mid.files[t.name], t.offset, content[..n])], Some(t.(offset := t.offset + n)))
  }

  ghost predicate WriteStep(path: string, a: World, content: Bytes, b: World, n: nat, ok: bool, how: Cleaning) {
    || (a.temp.None? && b == a && n == 0 && !ok && how == Removed)
    || (exists mid :: Opened(path, a, mid) && WrittenFrom(mid, content, b, n, ok, how))
  }

  ghost predicate WrittenFrom(mid: World, content: Bytes, b: World, n: nat, ok: bool, how: Cleaning) {
    && mid.temp.Some? && mid.temp.value.name in mid.files && n <= |content|
    && if ok then mid.temp.value.open && n == |content| && b == Reached(mid, content, n)
       else (!mid.temp.value.open ==> n == 0) && CleanStep(Reached(mid, content, n), b, how)
  }

  ghost predicate CloseStep(path: string, a: World, b: World, ok: bool, how: Cleaning) {
    if a.temp.None? then b == a && ok
    else
      var t := a.temp.value;
      if ok then t.open && t.name in a.files && b == World((a.files - {t.name})[path := a.files[t.name]], None)
      else exists open :: CleanStep(a.(temp := Some(t.(open := open))), b, how)
  }

  datatype Outcome = Done | NotExist | Failure

  /** The calls that can fail. */
  datatype OsCall = CreateCall | WriteCall | SyncCall | ChmodCall | RenameCall | RemoveCall | TruncateCall

  /** The function table of the writer. What has failed is recorded. */
  class Os {
    var files: Files
    ghost var failed: seq<OsCall>

    ghost function With(call: OsCall, ok: bool): seq<OsCall>
      reads this
    {
      if ok then failed else failed + [call]
    }

    method CreateTemp(path: string) returns (name: Option<string>)
      modifies this
      ensures name.None? ==> files == old(files)
      ensures name.Some? ==> name.value !in old(files) && name.value != path && files == old(files)[name.value := []]
      ensures failed == old(With(CreateCall, name.Some?))
    {
      var suffix: string := *;
      if suffix == "" || path + suffix in files {
        failed := With(CreateCall, false);
        return None;
      }
      assert |path + suffix| > |path|;
      name := Some(path + suffix);
      files := files[name.value := []];
    }

    method Write(f: TempFile, content: Bytes) returns (n: nat, ok: bool)
      requires f.name in files
      modifies this
      ensures n <= |content| && (ok ==> f.open && n == |content|) && (!f.open ==> n == 0)
      ensures files == old(files)[f.name := WriteAt(old(files)[f.name], f.offset, content[..n])]
      ensures failed == old(With(WriteCall, ok))
    {
      var reach: int := *;
      n := if !f.open || reach < 0 then 0 else if reach <= |content| then reach else |content|;
      ok := f.open && n == |content|;
      files := files[f.name := WriteAt(files[f.name], f.offset, content[..n])];
      failed := With(WriteCall, ok);
    }

    /** A closed descriptor cannot be synced. */
    method Sync(f: TempFile) returns (ok: bool)
      modifies this`failed
      ensures ok ==> f.open
      ensures failed == old(With(SyncCall, ok))
    {
      ok := *;
      ok := ok && f.open;
      failed := With(SyncCall, ok);
    }

    method Chmod(name: string) returns (ok: bool)
      modifies this`failed
      ensures failed == old(With(ChmodCall, ok))
    {
      ok := *;
      failed := With(ChmodCall, ok);
    }

    method Rename(from: string, to: string) returns (ok: bool)
      modifies this
      ensures ok ==> from in old(files) && files == (old(files) - {from})[to := old(files)[from]]
      ensures !ok ==> files == old(files)
      ensures failed == old(With(RenameCall, ok))
    {
      ok := *;
      ok := ok && from in files;
      if ok {
        files := (files - {from})[to := files[from]];
      }
      failed := With(RenameCall, ok);
    }

    method Remove(name: string) returns (r: Outcome)
      modifies this
      ensures r.Done? || r.NotExist? ==> files == old(files) - {name}
      ensures r.Failure? ==> files == old(files)
      ensures r.NotExist? <==> name !in old(files)
      ensures failed == old(With(RemoveCall, !r.Failure?))
    {
      if name !in files {
        assert files - {name} == files;
        return NotExist;
      }
      var works: bool := *;
      failed := With(RemoveCall, works);
      if !works {
        return Failure;
      }
      files := files - {name};
      return Done;
    }

    method Truncate(name: string) returns (r: Outcome)
      modifies this
      ensures r.Done? ==> files == old(files)[name := []]
      ensures !r.Done? ==> files == old(files)
      ensures r.NotExist? <==> name !in old(files)
      ensures failed == old(With(TruncateCall, !r.Failure?))
    {
      if name !in files {
        return NotExist;
      }
      var works: bool := *;
      failed := With(TruncateCall, works);
      if !works {
        return Failure;
      }
      files := files[name := []];
      return Done;
    }
  }

  /** A call with its outcome: `how` tells the end of the cleanup after a failure, `failed` which
      calls of the operating system failed in it. */
  datatype Call =
    | Wrote(content: Bytes, n: nat, ok: bool, how: Cleaning, failed: seq<OsCall>)
    | Closed(ok: bool, how: Cleaning, failed: seq<OsCall>)
    | Cleaned(how: Cleaning, failed: seq<OsCall>)

  /** A write fails iff creating the file or writing to it failed, a close iff syncing or renaming
      failed; a file stays iff its removal failed, and keeps its content iff its truncation did
      too. */
  ghost predicate Explained(call: Call) {
    && (call.how != Removed <==> RemoveCall in call.failed)
    && (call.how == Stuck <==> TruncateCall in call.failed)
    && match call
       case Wrote(_, _, ok, _, failed) => ok <==> CreateCall !in failed && WriteCall !in failed
       case Closed(ok, _, failed) => ok <==> SyncCall !in failed && RenameCall !in failed
       case Cleaned(_, _) => true
  }

  /** The calls that fail in a cleanup with this end. */
  function CleanupFailures(how: Cleaning): seq<OsCall> {
    match how
    case Removed => []
    case Truncated => [RemoveCall]
    case Stuck => [RemoveCall, TruncateCall]
  }

  class Writer {
    const path: string
    const os: Os
    var tempFile: Option<TempFile>

    constructor (path: string, os: Os)
      ensures Valid() && this.path == path && this.os == os
      ensures Now() == World(os.files, None)
    {
      this.path, this.os := path, os;
      tempFile := None;
    }

    ghost predicate Valid()
      reads this, os
    {
      tempFile.Some? ==> tempFile.value.name in os.files && tempFile.value.name != path
    }

    ghost function Now(): World
      reads this, os
    {
      World(os.files, tempFile)
    }

    /** The calls that failed since the log read so. */
    ghost function FailedSince(log: seq<OsCall>): seq<OsCall>
      requires |log| <= |os.failed|
      reads this, os
    {
      os.failed[|log|..]
    }

    /** The temporary file is created if there is none. */
    method EnsureTempFile() returns (ok: bool)
      requires Valid()
      modifies this, os
      ensures Valid() && os.failed == old(os.failed) + (if ok then [] else [CreateCall])
      ensures if ok then tempFile.Some? && Opened(path, old(Now()), Now()) else tempFile.None? && Now() == old(Now())
    {
      if tempFile.None? {
        var f := os.CreateTemp(path);
        if f.None? {
          return false;
        }
        tempFile := Some(TempFile(f.value, 0, true));
      }
      return true;
    }

    method WriteToTempFile(content: Bytes) returns (n: nat, ok: bool)
      requires Valid() && tempFile.Some?
      modifies this, os
      ensures Valid() && os.failed == old(os.failed) + (if ok then [] else [WriteCall])
      ensures n <= |content| && Now() == old(Reached(Now(), content, n))
      ensures if ok then old(tempFile.value).open && n == |content| else !old(tempFile.value).open ==> n == 0
    {
      n, ok := os.Write(tempFile.value, content);
      tempFile := Some(tempFile.value.(offset := tempFile.value.offset + n));
    }

    method Write(content: Bytes) returns (n: nat, ok: bool, ghost how: Cleaning)
      requires Valid()
      modifies this, os
      ensures Valid() && |old(os.failed)| <= |os.failed|
      ensures WriteStep(path, old(Now()), content, Now(), n, ok, how)
      ensures Explained(Wrote(content, n, ok, how, FailedSince(old(os.failed))))
    {
      how := Removed;
      ok := EnsureTempFile();
      if !ok {
        assert FailedSince(old(os.failed)) == [CreateCall];
        return 0, false, Removed;
      }
      ghost var mid := Now();
      n, ok := WriteToTempFile(content);
      if !ok {
        how := Cleanup();
      }
      assert FailedSince(old(os.failed)) == if ok then [] else [WriteCall] + CleanupFailures(how);
      WriteExplained(content, n, ok, how);
      WriteFrom(path, old(Now()), mid, content, Now(), n, ok, how);
    }

    static lemma WriteExplained(content: Bytes, n: nat, ok: bool, how: Cleaning)
      requires ok ==> how == Removed
      ensures Explained(Wrote(content, n, ok, how, if ok then [] else [WriteCall] + CleanupFailures(how)))
    {
    }

    static lemma WriteFrom(path: string, a: World, mid: World, content: Bytes, b: World, n: nat, ok: bool, how: Cleaning)
      requires Opened(path, a, mid) && mid.temp.Some? && mid.temp.value.name in mid.files && n <= |content|
      requires if ok then mid.temp.value.open && n == |content| && b == Reached(mid, content, n)
               else (!mid.temp.value.open ==> n == 0) && CleanStep(Reached(mid, content, n), b, how)
      ensures WriteStep(path, a, content, b, n, ok, how)
    {
      assert WrittenFrom(mid, content, b, n, ok, how);
    }

    /** What a close does before its deferred cleanup. */
    method Publish() returns (ok: bool, ghost failed: seq<OsCall>)
      requires Valid() && tempFile.Some?
      modifies this, os
      ensures Valid() && os.failed == old(os.failed) + failed
      ensures ok <==> SyncCall !in failed && RenameCall !in failed
      ensures RemoveCall !in failed && TruncateCall !in failed
      ensures var t := old(tempFile.value);
              if ok then t.open && tempFile.None? && os.files == (old(os.files) - {t.name})[path := old(os.files)[t.name]]
              else os.files == old(os.files) && tempFile.Some? && tempFile.value == t.(open := tempFile.value.open)
    {
      var t := tempFile.value;
      var synced := os.Sync(t);
      if !synced {
        return false, [SyncCall];
      }
      tempFile := Some(t.(open := false));
      var permitted := os.Chmod(t.name);
      failed := if permitted then [] else [ChmodCall];
      ok := os.Rename(t.name, path);
      if !ok {
        failed := failed + [RenameCall];
        return;
      }
      tempFile := None;
    }

    method Close() returns (ok: bool, ghost how: Cleaning)
      requires Valid()
      modifies this, os
      ensures Valid() && |old(os.failed)| <= |os.failed|
      ensures CloseStep(path, old(Now()), Now(), ok, how)
      ensures Explained(Closed(ok, how, FailedSince(old(os.failed))))
    {
      how := Removed;
      if tempFile.None? {
        return true, Removed;
      }
      ghost var before := Now();
      ghost var failed;
      ok, failed := Publish();
      ghost var unpublished := Now();
      how := Cleanup();
      assert FailedSince(old(os.failed)) == failed + CleanupFailures(how);
      assert !ok ==> unpublished == before.(temp := Some(before.temp.value.(open := unpublished.temp.value.open)));
    }

    method Cleanup() returns (ghost how: Cleaning)
      requires Valid()
      modifies this, os
      ensures Valid() && |old(os.failed)| <= |os.failed|
      ensures CleanStep(old(Now()), Now(), how)
      ensures os.failed == old(os.failed) + CleanupFailures(how)
    {
      how := Removed;
      if tempFile.None? {
        return;
      }
      var removed := os.Remove(tempFile.value.name);
      if removed.Done? || removed.NotExist? {
        tempFile := None;
        return;
      }
      var truncated := os.Truncate(tempFile.value.name);
      match truncated
      case NotExist => assert false;
      case Failure => how := Stuck;
      case Done => how := Truncated;
    }
  }

  // ---- runs of calls ----

  ghost predicate Step(path: string, a: World, call: Call, b: World) {
    Explained(call) &&
    match call
    case Wrote(content, n, ok, how, _) => WriteStep(path, a, content, b, n, ok, how)
    case Closed(ok, how, _) => CloseStep(path, a, b, ok, how)
    case Cleaned(how, _) => CleanStep(a, b, how)
  }

  ghost predicate Calls(path: string, worlds: seq<World>, calls: seq<Call>) {
    && |worlds| == |calls| + 1 && worlds[0].temp.None?
    && forall i, j | 0 <= i < j == i + 1 <= |calls| :: Step(path, worlds[i], calls[i], worlds[j])
  }

  /** Content collected by the calls since the last failure, close or cleanup: what a close is
      meant to publish. */
  ghost function Pending(calls: seq<Call>): Option<Bytes> {
    if calls == [] then None
    else match calls[|calls| - 1]
      case Wrote(content, n, ok, how, _) =>
        if !ok then None
        else
          var before := Pending(calls[..|calls| - 1]);
          Some((if before.Some? then before.value else []) + content)
      case _ => None
  }

  /** What the destination should hold: its old content until a close succeeds on pending
      content, and then exactly that content. */
  ghost function Published(initial: Option<Bytes>, calls: seq<Call>): Option<Bytes> {
    if calls == [] then initial
    else
      var front := calls[..|calls| - 1];
      if Publishes(calls[|calls| - 1]) && Pending(front).Some? then Pending(front) else Published(initial, front)
  }

  predicate Publishes(call: Call) {
    call.Closed? && call.ok
  }

  function ContentOf(files: Files, path: string): Option<Bytes> {
    if path in files then Some(files[path]) else None
  }

  // ---- what really reaches the destination ----

  /** What the calls since the temporary file was opened have put into it: how many bytes before
      it was last truncated, and which bytes since. */
  datatype Trail = Trail(lost: nat, kept: Bytes)

  const FRESH := Trail(0, [])

  function Cleared(trail: Trail, how: Cleaning): Option<Trail> {
    match how
    case Removed => None
    case Truncated => Some(Trail(trail.lost + |trail.kept|, []))
    case Stuck => Some(trail)
  }

  /** The trail of the retained temporary file; None when there is none. */
  ghost function TrailOf(calls: seq<Call>): Option<Trail> {
    if calls == [] then None
    else
      var before := TrailOf(calls[..|calls| - 1]);
      match calls[|calls| - 1]
      case Wrote(content, n, ok, how, _) =>
        var found := if before.Some? then before.value else FRESH;
        var longer := found.(kept := found.kept + (if n <= |content| then content[..n] else content));
        if ok then Some(longer) else Cleared(longer, how)
      case Closed(ok, how, _) => if ok || before.None? then None else Cleared(before.value, how)
      case Cleaned(how, _) => if before.None? then None else Cleared(before.value, how)
  }

  /** The content of a file with this trail: nothing, or a hole where the lost bytes were and
      then the kept ones. */
  function Content(trail: Trail): Bytes {
    if trail.kept == [] then [] else seq(trail.lost, _ => 0 as byte) + trail.kept
  }

  /** What the destination holds in the end. */
  ghost function Actual(initial: Option<Bytes>, calls: seq<Call>): Option<Bytes> {
    if calls == [] then initial
    else
      var front := calls[..|calls| - 1];
      if Publishes(calls[|calls| - 1]) && TrailOf(front).Some? then Some(Content(TrailOf(front).value)) else Actual(initial, front)
  }

  /** The temporary file is as its trail says, with the offset behind all that was written. */
  ghost predicate Follows(path: string, world: World, trail: Option<Trail>) {
    && (world.temp.None? <==> trail.None?)
    && (trail.Some? ==>
          var t := world.temp.value;
          && t.name != path && t.name in world.files && world.files[t.name] == Content(trail.value)
          && t.offset == trail.value.lost + |trail.value.kept|)
  }

  lemma AppendAtEnd(old_: Bytes, content: Bytes)
    ensures WriteAt(old_, |old_|, content) == old_ + content
  {
  }

  lemma WriteBehindHole(offset: nat, content: Bytes)
    requires content != []
    ensures WriteAt([], offset, content) == seq(offset, _ => 0 as byte) + content
  {
    assert [] + seq(offset, _ => 0 as byte) == seq(offset, _ => 0 as byte);
  }

  lemma WriteExtends(trail: Trail, more: Bytes)
    ensures WriteAt(Content(trail), trail.lost + |trail.kept|, more) == Content(trail.(kept := trail.kept + more))
  {
    if more == [] {
      assert trail.kept + more == trail.kept;
    } else if trail.kept == [] {
      assert trail.kept + more == more;
      WriteBehindHole(trail.lost, more);
    } else {
      AppendAtEnd(Content(trail), more);
      Associate(seq(trail.lost, _ => 0 as byte), trail.kept, more);
    }
  }

  lemma ReachedFollows(path: string, mid: World, content: Bytes, n: nat, trail: Trail)
    requires Follows(path, mid, Some(trail)) && n <= |content|
    ensures Follows(path, Reached(mid, content, n), Some(trail.(kept := trail.kept + content[..n])))
    ensures ContentOf(Reached(mid, content, n).files, path) == ContentOf(mid.files, path)
  {
    WriteExtends(trail, content[..n]);
  }

  lemma CleanedFollows(path: string, a: World, b: World, how: Cleaning, trail: Option<Trail>)
    requires CleanStep(a, b, how) && Follows(path, a, trail)
    ensures Follows(path, b, if trail.None? then None else Cleared(trail.value, how))
    ensures ContentOf(b.files, path) == ContentOf(a.files, path)
  {
  }

  lemma OpenedFollows(path: string, a: World, mid: World, trail: Option<Trail>)
    requires Opened(path, a, mid) && Follows(path, a, trail)
    ensures Follows(path, mid, Some(if trail.Some? then trail.value else FRESH))
    ensures ContentOf(mid.files, path) == ContentOf(a.files, path)
  {
  }

  lemma WriteFollows(path: string, a: World, b: World, calls: seq<Call>)
    requires calls != [] && calls[|calls| - 1].Wrote? && Step(path, a, calls[|calls| - 1], b)
    requires Follows(path, a, TrailOf(calls[..|calls| - 1]))
    ensures Follows(path, b, TrailOf(calls)) && ContentOf(b.files, path) == ContentOf(a.files, path)
  {
    var Wrote(content, n, ok, how, _) := calls[|calls| - 1];
    var before := TrailOf(calls[..|calls| - 1]);
    if mid :| Opened(path, a, mid) && WrittenFrom(mid, content, b, n, ok, how) {
      OpenedFollows(path, a, mid, before);
      var trail := if before.Some? then before.value else FRESH;
      ReachedFollows(path, mid, content, n, trail);
      if !ok {
        CleanedFollows(path, Reached(mid, content, n), b, how, Some(trail.(kept := trail.kept + content[..n])));
      }
    }
  }

  lemma StepFollows(path: string, a: World, b: World, initial: Option<Bytes>, calls: seq<Call>)
    requires calls != [] && Step(path, a, calls[|calls| - 1], b)
    requires Follows(path, a, TrailOf(calls[..|calls| - 1]))
    requires ContentOf(a.files, path) == Actual(initial, calls[..|calls| - 1])
    ensures Follows(path, b, TrailOf(calls)) && ContentOf(b.files, path) == Actual(initial, calls)
  {
    var before := TrailOf(calls[..|calls| - 1]);
    match calls[|calls| - 1]
    case Wrote(content, n, ok, how, _) =>
      WriteFollows(path, a, b, calls);
    case Closed(ok, how, _) =>
      if !ok && a.temp.Some? {
        var open :| CleanStep(a.(temp := Some(a.temp.value.(open := open))), b, how);
        CleanedFollows(path, a.(temp := Some(a.temp.value.(open := open))), b, how, before);
      }
    case Cleaned(how, _) =>
      CleanedFollows(path, a, b, how, before);
  }

  /** Over any sequence of calls and any faults at all, the destination and the temporary file
      are exactly what the outcomes of the calls say. */
  lemma {:induction false} DestinationIsActual(path: string, worlds: seq<World>, calls: seq<Call>)
    requires Calls(path, worlds, calls)
    ensures Follows(path, worlds[|calls|], TrailOf(calls))
    ensures ContentOf(worlds[|calls|].files, path) == Actual(ContentOf(worlds[0].files, path), calls)
  {
    if calls != [] {
      var n := |calls| - 1;
      DestinationIsActual(path, worlds[..|worlds| - 1], calls[..n]);
      StepFollows(path, worlds[n], worlds[n + 1], ContentOf(worlds[0].files, path), calls);
    }
  }

  // ---- when it is what was meant ----

  /** How many of the calls come before the writes still pending. */
  ghost function PendingFrom(calls: seq<Call>): nat
    ensures PendingFrom(calls) <= |calls|
  {
    if calls != [] && calls[|calls| - 1].Wrote? && calls[|calls| - 1].ok then PendingFrom(calls[..|calls| - 1]) else |calls|
  }

  /** The calls before the pending writes left no file behind, or one no byte had gone into. */
  ghost predicate NothingBefore(calls: seq<Call>) {
    var found := TrailOf(calls[..PendingFrom(calls)]);
    found.None? || found.value == FRESH
  }

  /** They left no file behind, or one that nothing was written to after its last truncation. */
  ghost predicate EmptyBefore(calls: seq<Call>) {
    var found := TrailOf(calls[..PendingFrom(calls)]);
    found.None? || found.value.kept == []
  }

  /** The last close that renamed a file published what it should have: pending content, if it
      is not empty, in a file that nothing had gone into; empty pending content in an empty
      file; and with nothing pending, a leftover file that happens to equal the destination. */
  ghost predicate Faithful(initial: Option<Bytes>, calls: seq<Call>) {
    calls == [] ||
    var front := calls[..|calls| - 1];
    if Publishes(calls[|calls| - 1]) && TrailOf(front).Some? then
      match Pending(front)
      case Some(p) => if p != [] then NothingBefore(front) else EmptyBefore(front)
      case None => Published(initial, front) == Some(Content(TrailOf(front).value))
    else Faithful(initial, front)
  }

  /** Every successful write in a history really wrote all of its content. */
  ghost predicate Complete(calls: seq<Call>) {
    forall i | 0 <= i < |calls| && calls[i].Wrote? && calls[i].ok :: calls[i].n == |calls[i].content|
  }

  /** The pending content ends the trail, behind what the pending writes found. */
  lemma {:induction false} PendingEndsTrail(calls: seq<Call>)
    requires Complete(calls) && Pending(calls).Some?
    ensures TrailOf(calls).Some?
    ensures var found := TrailOf(calls[..PendingFrom(calls)]);
            var trail := if found.Some? then found.value else FRESH;
            TrailOf(calls).value == trail.(kept := trail.kept + Pending(calls).value)
  {
    var n := |calls| - 1;
    var front, content := calls[..n], calls[n].content;
    assert calls[n].n == |content| && content[..calls[n].n] == content;
    assert calls[..PendingFrom(calls)] == front[..PendingFrom(front)];
    if Pending(front).Some? {
      assert Complete(front);
      PendingEndsTrail(front);
      var found := TrailOf(front[..PendingFrom(front)]);
      Associate((if found.Some? then found.value else FRESH).kept, Pending(front).value, content);
    } else {
      NoPendingStartsHere(front);
      assert front[..|front|] == front && [] + content == content;
    }
  }

  lemma NoPendingStartsHere(calls: seq<Call>)
    requires Pending(calls).None?
    ensures PendingFrom(calls) == |calls|
  {
  }

  lemma PublishesPending(trail: Trail, p: Bytes)
    ensures var content := Content(trail.(kept := trail.kept + p));
            content == p <==> if p != [] then trail == FRESH else trail.kept == []
  {
    assert trail.kept + [] == trail.kept;
    assert p != [] ==> |Content(trail.(kept := trail.kept + p))| == trail.lost + |trail.kept| + |p|;
    assert [] + p == p && seq(0, _ => 0 as byte) + p == p;
  }

  lemma {:induction false} ActualIsPublished(initial: Option<Bytes>, calls: seq<Call>)
    requires Complete(calls)
    ensures Actual(initial, calls) == Published(initial, calls) <==> Faithful(initial, calls)
  {
    if calls != [] {
      var front := calls[..|calls| - 1];
      assert Complete(front);
      ActualIsPublished(initial, front);
      if Pending(front).Some? {
        PendingEndsTrail(front);
        var found := TrailOf(front[..PendingFrom(front)]);
        PublishesPending(if found.Some? then found.value else FRESH, Pending(front).value);
      }
    }
  }

  lemma CallsAreComplete(path: string, worlds: seq<World>, calls: seq<Call>)
    requires Calls(path, worlds, calls)
    ensures Complete(calls)
  {
    forall i | 0 <= i < |calls| && calls[i].Wrote? && calls[i].ok ensures calls[i].n == |calls[i].content| {
      assert Step(path, worlds[i], calls[i], worlds[i + 1]);
    }
  }

  /** Over any sequence of calls and any faults at all, the destination holds what it should iff
      the last close that renamed a file was faithful. */
  lemma PublishesIff(path: string, worlds: seq<World>, calls: seq<Call>)
    requires Calls(path, worlds, calls)
    ensures var initial := ContentOf(worlds[0].files, path);
            ContentOf(worlds[|calls|].files, path) == Published(initial, calls) <==> Faithful(initial, calls)
  {
    DestinationIsActual(path, worlds, calls);
    CallsAreComplete(path, worlds, calls);
    ActualIsPublished(ContentOf(worlds[0].files, path), calls);
  }

  /** No removal of the temporary file has failed. */
  ghost predicate RemovalsWork(calls: seq<Call>) {
    forall i | 0 <= i < |calls| :: Explained(calls[i]) && RemoveCall !in calls[i].failed
  }

  lemma {:induction false} RemovedLeavesNothing(initial: Option<Bytes>, calls: seq<Call>)
    requires RemovalsWork(calls)
    ensures TrailOf(calls).Some? <==> Pending(calls).Some?
    ensures NothingBefore(calls)
    ensures Faithful(initial, calls)
  {
    if calls == [] {
      assert calls[..PendingFrom(calls)] == [];
    } else {
      var front := calls[..|calls| - 1];
      RemovedLeavesNothing(initial, front);
      var i := PendingFrom(calls);
      if i == |calls| {
        assert calls[..i] == calls;
      } else {
        assert calls[..i] == front[..i];
      }
    }
  }

  /** While no removal fails, the destination keeps its old content until a close succeeds on
      pending content, and then holds exactly the concatenation of the writes to the file that
      was renamed. */
  lemma PublishesWholeContent(path: string, worlds: seq<World>, calls: seq<Call>)
    requires Calls(path, worlds, calls) && forall i | 0 <= i < |calls| :: RemoveCall !in calls[i].failed
    ensures ContentOf(worlds[|calls|].files, path) == Published(ContentOf(worlds[0].files, path), calls)
  {
    forall i | 0 <= i < |calls| ensures Explained(calls[i]) {
      assert Step(path, worlds[i], calls[i], worlds[i + 1]);
    }
    RemovedLeavesNothing(ContentOf(worlds[0].files, path), calls);
    PublishesIff(path, worlds, calls);
  }

  /** The last of these calls left no temporary file behind, as its own outcome shows. */
  predicate EndedCleanly(calls: seq<Call>) {
    calls == [] || match calls[|calls| - 1]
      case Wrote(_, _, ok, how, _) => !ok && how == Removed
      case Closed(ok, how, _) => ok || how == Removed
      case Cleaned(how, _) => how == Removed
  }

  /** What a caller can check before closing: if the call before the pending writes left no file,
      the close publishes exactly the pending content. */
  lemma CleanFileIsFaithful(initial: Option<Bytes>, calls: seq<Call>)
    requires calls != [] && Publishes(calls[|calls| - 1]) && TrailOf(calls[..|calls| - 1]).Some? && Complete(calls)
    requires var front := calls[..|calls| - 1]; EndedCleanly(front[..PendingFrom(front)])
    ensures Pending(calls[..|calls| - 1]).Some? && Actual(initial, calls) == Pending(calls[..|calls| - 1]) == Published(initial, calls)
  {
    var front := calls[..|calls| - 1];
    assert front[..|front|] == front;
    if Pending(front).None? {
      NoPendingStartsHere(front);
    }
    ActualIsPublished(initial, calls);
  }

  /** And what happens otherwise, with nothing pending: a file that a failed call left truncated
      makes the destination empty, which is right only if it was to be empty. */
  lemma TruncatedLeftoverErases(initial: Option<Bytes>, calls: seq<Call>)
    requires |calls| >= 2 && Publishes(calls[|calls| - 1])
    requires var failed := calls[|calls| - 2]; !Publishes(failed) && !(failed.Wrote? && failed.ok) && failed.how == Truncated
    requires TrailOf(calls[..|calls| - 1]).Some?
    ensures Actual(initial, calls) == Some([])
    ensures Actual(initial, calls) == Published(initial, calls) <==> Published(initial, calls[..|calls| - 1]) == Some([])
  {
    var front := calls[..|calls| - 1];
    assert front[|front| - 1] == calls[|calls| - 2];
    assert TrailOf(front).value.kept == [] && Pending(front).None?;
  }

  function Concatenated(contents: seq<Bytes>): Bytes {
    if contents == [] then [] else Concatenated(contents[..|contents| - 1]) + contents[|contents| - 1]
  }

  /** The calls write these contents one after the other, and nothing fails. */
  ghost predicate WritesWithoutFault(calls: seq<Call>, contents: seq<Bytes>) {
    |calls| == |contents| && forall i | 0 <= i < |calls| ::
      calls[i].Wrote? && calls[i].content == contents[i] && Explained(calls[i]) && calls[i].failed == []
  }

  lemma {:induction false} FaultFreePends(calls: seq<Call>, contents: seq<Bytes>)
    requires WritesWithoutFault(calls, contents)
    ensures Pending(calls) == if contents == [] then None else Some(Concatenated(contents))
  {
    if calls != [] {
      var n := |calls| - 1;
      FaultFreePends(calls[..n], contents[..n]);
      assert calls[n].ok;
    }
  }

  /** Without any fault the destination ends up holding exactly what was written, and is left as
      it was if nothing was. */
  lemma FaultFreeIsPublished(path: string, worlds: seq<World>, calls: seq<Call>, contents: seq<Bytes>)
    requires Calls(path, worlds, calls) && |calls| == |contents| + 1
    requires calls[|contents|].Closed? && forall i | 0 <= i < |calls| :: calls[i].failed == []
    requires forall i | 0 <= i < |contents| :: calls[i].Wrote? && calls[i].content == contents[i]
    ensures ContentOf(worlds[|calls|].files, path)
         == if contents == [] then ContentOf(worlds[0].files, path) else Some(Concatenated(contents))
  {
    var front := calls[..|contents|];
    forall i | 0 <= i < |calls| ensures Explained(calls[i]) {
      assert Step(path, worlds[i], calls[i], worlds[i + 1]);
    }
    PublishesWholeContent(path, worlds, calls);
    FaultFreePends(front, contents);
    assert calls[..|calls| - 1] == front && Publishes(calls[|calls| - 1]);
    NothingPublishedBefore(ContentOf(worlds[0].files, path), front, contents);
  }

  lemma {:induction false} NothingPublishedBefore(initial: Option<Bytes>, calls: seq<Call>, contents: seq<Bytes>)
    requires WritesWithoutFault(calls, contents)
    ensures Published(initial, calls) == initial
  {
    if calls != [] {
      NothingPublishedBefore(initial, calls[..|calls| - 1], contents[..|contents| - 1]);
    }
  }

  // ---- single calls ----

  /** Whatever fails, only a successful close changes the destination. */
  lemma OnlyCloseTouchesDestination(path: string, a: World, call: Call, b: World)
    requires Step(path, a, call, b) && (a.temp.Some? ==> a.temp.value.name != path) && !Publishes(call)
    ensures ContentOf(b.files, path) == ContentOf(a.files, path)
  {
  }

  /** After a close, in all cases, the temporary file was renamed, is gone, is empty, or neither
      its removal nor its truncation succeeded and no file has changed. */
  lemma CloseLeavesNothing(path: string, a: World, b: World, ok: bool, how: Cleaning)
    requires CloseStep(path, a, b, ok, how) && a.temp.Some? && a.temp.value.name != path
    ensures var name := a.temp.value.name;
            || (ok && name !in b.files && ContentOf(b.files, path) == ContentOf(a.files, name))
            || (!ok && how == Removed && name !in b.files && b.temp.None?)
            || (!ok && how == Truncated && ContentOf(b.files, name) == Some([]))
            || (!ok && how == Stuck && b.files == a.files)
  {
  }

  // ---- what goes wrong otherwise ----

  /** A write fails and its file can only be truncated. Closing then, as the push to a file always
      does, replaces the old content by nothing; writing again before closing publishes a hole. */
  lemma FailedRemovalPublishesHole(path: string, temp: string, keep: Bytes, x: byte, y: byte) returns (worlds: seq<World>, calls: seq<Call>)
    requires temp != path && keep != []
    ensures Calls(path, worlds, calls) && ContentOf(worlds[0].files, path) == Some(keep)
    ensures calls == [Wrote([x], 1, true, Removed, []), Wrote([x], 0, false, Truncated, [WriteCall, RemoveCall]), Wrote([y], 1, true, Removed, []), Closed(true, Removed, [])]
    ensures ContentOf(worlds[4].files, path) == Some([0, y]) && Published(Some(keep), calls) == Some([y])
  {
    var files: Files := map[path := keep];
    var w1 := World(files[temp := [x]], Some(TempFile(temp, 1, true)));
    var w2 := World(files[temp := []], Some(TempFile(temp, 1, true)));
    var w3 := World(files[temp := [0, y]], Some(TempFile(temp, 2, true)));
    worlds := [World(files, None), w1, w2, w3, World(map[path := [0, y]], None)];
    calls := [Wrote([x], 1, true, Removed, []), Wrote([x], 0, false, Truncated, [WriteCall, RemoveCall]), Wrote([y], 1, true, Removed, []), Closed(true, Removed, [])];
    FirstTwoSteps(path, temp, keep, x);
    assert Step(path, w2, calls[2], w3) by {
      assert Opened(path, w2, w2) && WriteAt([], 1, [y][..1]) == [0, y];
      assert WrittenFrom(w2, [y], w3, 1, true, Removed);
    }
    assert calls[..3][..2] == [Wrote([x], 1, true, Removed, []), Wrote([x], 0, false, Truncated, [WriteCall, RemoveCall])];
    assert Pending(calls[..3][..2]) == None;
    assert Pending(calls[..3]) == Some([y]) by {
      assert [] + [y] == [y];
    }
  }

  lemma FirstTwoSteps(path: string, temp: string, keep: Bytes, x: byte)
    requires temp != path
    ensures var files: Files := map[path := keep];
            var w1, w2 := World(files[temp := [x]], Some(TempFile(temp, 1, true))), World(files[temp := []], Some(TempFile(temp, 1, true)));
            && Step(path, World(files, None), Wrote([x], 1, true, Removed, []), w1)
            && Step(path, w1, Wrote([x], 0, false, Truncated, [WriteCall, RemoveCall]), w2)
  {
    var files: Files := map[path := keep];
    var m0 := World(files[temp := []], Some(TempFile(temp, 0, true)));
    var w1, w2 := World(files[temp := [x]], Some(TempFile(temp, 1, true))), World(files[temp := []], Some(TempFile(temp, 1, true)));
    assert Opened(path, World(files, None), m0) && WriteAt([], 0, [x][..1]) == [x];
    assert WrittenFrom(m0, [x], w1, 1, true, Removed);
    assert Opened(path, w1, w1) && WriteAt([x], 1, [x][..0]) == [x];
    assert CleanStep(Reached(w1, [x], 0), w2, Truncated);
    assert WrittenFrom(w1, [x], w2, 0, false, Truncated);
  }

  /** The same failure, and then the close: the old content is gone. */
  lemma FailedRemovalLosesContent(path: string, temp: string, keep: Bytes, x: byte) returns (worlds: seq<World>, calls: seq<Call>)
    requires temp != path && keep != []
    ensures Calls(path, worlds, calls) && ContentOf(worlds[0].files, path) == Some(keep)
    ensures calls == [Wrote([x], 1, true, Removed, []), Wrote([x], 0, false, Truncated, [WriteCall, RemoveCall]), Closed(true, Removed, [])]
    ensures ContentOf(worlds[3].files, path) == Some([]) && Published(Some(keep), calls) == Some(keep)
  {
    var files: Files := map[path := keep];
    var w1, w2 := World(files[temp := [x]], Some(TempFile(temp, 1, true))), World(files[temp := []], Some(TempFile(temp, 1, true)));
    worlds := [World(files, None), w1, w2, World(map[path := []], None)];
    calls := [Wrote([x], 1, true, Removed, []), Wrote([x], 0, false, Truncated, [WriteCall, RemoveCall]), Closed(true, Removed, [])];
    FirstTwoSteps(path, temp, keep, x);
    assert calls[..2] == [Wrote([x], 1, true, Removed, []), Wrote([x], 0, false, Truncated, [WriteCall, RemoveCall])];
    assert Pending(calls[..2]) == None && calls[..2][..1] == [Wrote([x], 1, true, Removed, [])];
    assert Published(Some(keep), [Wrote([x], 1, true, Removed, [])]) == Some(keep) by {
      assert [Wrote([x], 1, true, Removed, [])][..0] == [];
    }
    assert Published(Some(keep), calls[..2]) == Some(keep);
  }
}
