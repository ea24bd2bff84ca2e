/** A file write to a device over a lossy link: chunks to a staging file, a size
    check, a rename. The device may refuse, lose answers, or drop a chunk's suffix
    when it closes the file; the live file only ever holds old or new content. */
module StagedWrite {
  import opened Prelude

  type Bytes = seq<bv8>

  const WRITE_CHUNK_SIZE: nat := 3900
  const STAGED_SUFFIX := ".new"
  const MAX_INT: nat := 0x7fff_ffff_ffff_ffff

  function WriteChunkCount(n: nat): nat {
    (n + WRITE_CHUNK_SIZE - 1) / WRITE_CHUNK_SIZE
  }

  /** The most round trips one write needs: every chunk, then three commands. */
  function WriteSteps(n: nat): nat {
    WriteChunkCount(n) + 3
  }

  // ----- The acknowledgement line

  predicate Digit(c: char) {
    '0' <= c <= '9'
  }

  /** The leading digits of s. */
  function DigitRun(s: string): (n: nat)
    ensures n <= |s| && (forall i :: 0 <= i < n ==> Digit(s[i])) && (n < |s| ==> !Digit(s[n]))
  {
    if s != "" && Digit(s[0]) then 1 + DigitRun(s[1..]) else 0
  }

  function Decimal(digits: string): nat {
    if digits == "" then 0
    else 10 * Decimal(digits[..|digits| - 1])
         + (if Digit(digits[|digits| - 1]) then (digits[|digits| - 1] - '0') as nat else 0)
  }

  /** fmt's %d of a natural number. */
  function Print(n: nat): string {
    if n < 10 then ['0' + n as char] else Print(n / 10) + ['0' + (n % 10) as char]
  }

  const BYTES_TO := " bytes to "

  /** What follows "Wrote " or "Appended ": digits, " bytes to ", a path that need
      only be a prefix of the staging path, because the firmware cuts the line. */
  function AckTail(s: string, staged: string): Option<nat> {
    var n := DigitRun(s);
    var rest := s[n..];
    if n == 0 || !(BYTES_TO <= rest) || rest == BYTES_TO then None
    else if !(rest[|BYTES_TO|..] <= staged) || Decimal(s[..n]) > MAX_INT then None
    else Some(Decimal(s[..n]))
  }

  function AckedBytes(output: seq<string>, staged: string): Option<nat> {
    if output == [] then None
    else if "Wrote " <= output[0] then AckTail(output[0][6..], staged)
    else if "Appended " <= output[0] then AckTail(output[0][9..], staged)
    else None
  }

  predicate OutputHasPrefix(output: seq<string>, prefix: string) {
    exists i :: 0 <= i < |output| && prefix <= output[i]
  }

  lemma {:induction false} PrintParses(n: nat)
    ensures Print(n) != "" && (forall i :: 0 <= i < |Print(n)| ==> Digit(Print(n)[i]))
    ensures Decimal(Print(n)) == n
  {
    if n >= 10 {
      PrintParses(n / 10);
      assert Print(n)[..|Print(n)| - 1] == Print(n / 10);
    } else {
      assert Print(n)[..0] == "" && Decimal("") == 0;
    }
  }

  lemma {:induction false} DigitRunStops(digits: string, rest: string)
    requires forall i :: 0 <= i < |digits| ==> Digit(digits[i])
    requires rest == "" || !Digit(rest[0])
    ensures DigitRun(digits + rest) == |digits|
  {
    if digits == "" {
      assert digits + rest == rest;
    } else {
      assert (digits + rest)[1..] == digits[1..] + rest;
      DigitRunStops(digits[1..], rest);
    }
  }

  /** The count of every well-formed acknowledgement, cut anywhere inside its path,
      is read back exactly. */
  lemma AckRoundTrip(n: nat, staged: string, cut: nat, append: bool)
    requires n <= MAX_INT && 0 < cut <= |staged|
    ensures AckedBytes([(if append then "Appended " else "Wrote ") + Print(n) + BYTES_TO + staged[..cut]], staged) ==
      Some(n)
  {
    var head, tail := if append then "Appended " else "Wrote ", Print(n) + (BYTES_TO + staged[..cut]);
    var line := head + Print(n) + BYTES_TO + staged[..cut];
    assert line == head + tail;
    AckTailReads(n, staged, cut);
    AckedAfterHead(line, head, tail, staged);
  }

  lemma AckTailReads(n: nat, staged: string, cut: nat)
    requires n <= MAX_INT && 0 < cut <= |staged|
    ensures AckTail(Print(n) + (BYTES_TO + staged[..cut]), staged) == Some(n)
  {
    var tail := BYTES_TO + staged[..cut];
    PrintParses(n);
    DigitRunStops(Print(n), tail);
    var s := Print(n) + tail;
    assert s[..|Print(n)|] == Print(n) && s[|Print(n)|..] == tail;
    assert tail[|BYTES_TO|..] == staged[..cut];
  }

  lemma AckedAfterHead(line: string, head: string, tail: string, staged: string)
    requires line == head + tail && (head == "Wrote " || head == "Appended ")
    ensures AckedBytes([line], staged) == AckTail(tail, staged)
  {
    assert line[|head|..] == tail && head <= line && line[0] == head[0];
  }

  /** An acknowledgement of n bytes, its path cut somewhere. */
  predicate AckLine(line: string, staged: string, n: nat, append: bool, digits: string, path: string) {
    && line == (if append then "Appended " else "Wrote ") + digits + BYTES_TO + path
    && digits != "" && (forall i :: 0 <= i < |digits| ==> Digit(digits[i])) && Decimal(digits) == n <= MAX_INT
    && path != "" && path <= staged
  }

  /** A count is read from exactly the lines that acknowledge it for the staging path. */
  lemma AckReadIff(output: seq<string>, staged: string, n: nat)
    ensures AckedBytes(output, staged) == Some(n) <==>
              output != [] && exists append, digits, path :: AckLine(output[0], staged, n, append, digits, path)
  {
    if AckedBytes(output, staged) == Some(n) {
      var append, digits, path := AckLineOf(output, staged, n);
    }
    if output != [] {
      if append, digits, path :| AckLine(output[0], staged, n, append, digits, path) {
        AckLineReads(output[0], staged, n, append, digits, path);
        OnlyFirstLineCounts(output, staged);
      }
    }
  }

  lemma OnlyFirstLineCounts(output: seq<string>, staged: string)
    requires output != []
    ensures AckedBytes(output, staged) == AckedBytes([output[0]], staged)
  {
  }

  lemma AckLineOf(output: seq<string>, staged: string, n: nat) returns (append: bool, digits: string, path: string)
    requires AckedBytes(output, staged) == Some(n)
    ensures output != [] && AckLine(output[0], staged, n, append, digits, path)
  {
    var line := output[0];
    append := !("Wrote " <= line);
    var head := if append then "Appended " else "Wrote ";
    var tail := line[|head|..];
    assert head <= line && AckTail(tail, staged) == Some(n);
    digits, path := AckTailOf(tail, staged, n);
    Joined4(line, head, digits, path);
  }

  lemma Joined4(line: string, head: string, digits: string, path: string)
    requires head <= line && line[|head|..] == digits + BYTES_TO + path
    ensures line == head + digits + BYTES_TO + path
  {
    assert line == head + line[|head|..];
  }

  lemma AckTailOf(tail: string, staged: string, n: nat) returns (digits: string, path: string)
    requires AckTail(tail, staged) == Some(n)
    ensures tail == digits + BYTES_TO + path && path != "" && path <= staged
    ensures digits != "" && (forall i :: 0 <= i < |digits| ==> Digit(digits[i])) && Decimal(digits) == n <= MAX_INT
  {
    var run := DigitRun(tail);
    var rest := tail[run..];
    digits, path := tail[..run], rest[|BYTES_TO|..];
    AfterPrefix(rest, BYTES_TO);
    assert tail == digits + rest;
    assert digits + rest == digits + BYTES_TO + path;
  }

  lemma AfterPrefix(s: string, prefix: string)
    requires prefix <= s
    ensures s == prefix + s[|prefix|..]
  {
  }

  lemma AckLineReads(line: string, staged: string, n: nat, append: bool, digits: string, path: string)
    requires AckLine(line, staged, n, append, digits, path)
    ensures AckedBytes([line], staged) == Some(n)
  {
    var head, tail := if append then "Appended " else "Wrote ", digits + (BYTES_TO + path);
    assert line == head + tail;
    AckedAfterHead(line, head, tail, staged);
    DigitRunStops(digits, BYTES_TO + path);
    assert tail[..|digits|] == digits && tail[|digits|..] == BYTES_TO + path;
    assert (BYTES_TO + path)[|BYTES_TO|..] == path;
  }

  // ----- The device

  datatype Reply =
    | NoReply(timedOut: bool)
    | Reply(ok: bool, output: seq<string>, total: Option<nat>)

  class Device {
    /** The files at the path and at the staging path. */
    var target: Option<Bytes>
    var staged: Option<Bytes>
    var trips: nat
    /** What the target held after each command so far. */
    ghost var trail: seq<Option<Bytes>>
    /** How often the link or the device let a command down: not delivered or not
        answered, refused, its answer short or unreadable, bytes not taken or dropped. */
    ghost var faults: nat

    constructor (target: Option<Bytes>, staged: Option<Bytes>)
      ensures this.target == target && this.staged == staged && trips == 0 && trail == [] && faults == 0
    {
      this.target, this.staged, trips, trail, faults := target, staged, 0, [], 0;
    }

    twostate predicate Counted()
      reads this
    {
      trips == old(trips) + 1 && trail == old(trail) + [target]
    }

    /** fs.write and fs.append. An acknowledged count is the bytes accepted before
        the close, which may still lose a suffix of them. Without a readable
        acknowledgement the staging file may hold anything. */
    method WriteChunk(path: string, chunk: Bytes, append: bool) returns (r: Reply)
      modifies this
      ensures Counted() && target == old(target)
      ensures r.Reply? && r.ok && AckedBytes(r.output, path).Some? ==>
                var base := if append && old(staged).Some? then old(staged).value else [];
                exists k :: 0 <= k <= |chunk| && k <= AckedBytes(r.output, path).value
                  && staged == Some(base + chunk[..k])
      ensures faults >= old(faults)
      ensures faults == old(faults) && |chunk| <= MAX_INT ==>
                r.Reply? && r.ok && AckedBytes(r.output, path) == Some(|chunk|)
                && staged == Some((if append && old(staged).Some? then old(staged).value else []) + chunk)
    {
      trips, trail := trips + 1, trail + [target];
      var delivered: bool, refused: bool, answered: bool, timedOut: bool := *, *, *, *;
      var accepted: nat, kept: nat, garbled: bool, cut: nat := *, *, *, *;
      accepted := if accepted > |chunk| then |chunk| else accepted;
      kept := if kept > accepted then accepted else kept;
      if !delivered || refused || !answered || kept < |chunk| || garbled || cut == 0 || cut > |path| {
        faults := faults + 1;
      }
      if !delivered { return NoReply(timedOut); }
      if refused {
        return if answered then Reply(false, ["Failed to open file"], None) else NoReply(timedOut);
      }
      var base := if append && staged.Some? then staged.value else [];
      staged := Some(base + chunk[..kept]);
      if !answered { return NoReply(timedOut); }
      if garbled || cut == 0 || cut > |path| || accepted > MAX_INT {
        return Reply(true, [], None);
      }
      AckRoundTrip(accepted, path, cut, append);
      assert chunk[..|chunk|] == chunk;
      return Reply(true, [(if append then "Appended " else "Wrote ") + Print(accepted) + BYTES_TO + path[..cut]], None);
    }

    /** fs.cat at an offset: the answer carries the committed size. */
    method Size() returns (r: Reply)
      modifies this
      ensures Counted() && target == old(target) && staged == old(staged)
      ensures r.Reply? && r.ok && r.total.Some? ==> staged.Some? && r.total.value == |staged.value|
      ensures faults >= old(faults)
      ensures faults == old(faults) ==>
                r.Reply? && (r.ok <==> staged.Some?) && (r.ok ==> r.total == Some(|staged.value|))
    {
      trips, trail := trips + 1, trail + [target];
      var answered: bool, timedOut: bool, sized: bool := *, *, *;
      if !answered || !sized { faults := faults + 1; }
      if !answered { return NoReply(timedOut); }
      if staged.None? { return Reply(false, ["File not found"], None); }
      return Reply(true, [], if sized then Some(|staged.value|) else None);
    }

    /** fs.mv of the staging file over the target. */
    method Rename() returns (r: Reply)
      modifies this
      ensures Counted()
      ensures (target == old(target) && staged == old(staged))
              || (old(staged).Some? && target == old(staged) && staged == None)
      ensures r.Reply? && r.ok && OutputHasPrefix(r.output, "Renamed ") ==>
                old(staged).Some? && target == old(staged) && staged == None
      ensures faults >= old(faults)
      ensures faults == old(faults) && old(staged).Some? ==> r.Reply? && r.ok && OutputHasPrefix(r.output, "Renamed ")
    {
      var delivered: bool, refused: bool, answered: bool, timedOut: bool := *, *, *, *;
      var works := delivered && !refused && staged.Some?;
      if !delivered || refused || !answered { faults := faults + 1; }
      if works { target, staged := staged, None; }
      trips, trail := trips + 1, trail + [target];
      if !delivered || !answered { return NoReply(timedOut); }
      assert "Renamed "[0] != "Failed to rename"[0];
      if works { assert ["Renamed "][0] == "Renamed "; }
      return Reply(true, [if works then "Renamed " else "Failed to rename"], None);
    }

    /** fs.rm of the staging file. */
    method Remove() returns (r: Reply)
      modifies this
      ensures Counted() && target == old(target) && (staged == old(staged) || staged == None)
      ensures r.Reply? && OutputHasPrefix(r.output, "Removed ") ==> staged == None
      ensures faults >= old(faults)
    {
      trips, trail := trips + 1, trail + [target];
      var delivered: bool, answered: bool, timedOut: bool := *, *, *;
      var works := delivered && staged.Some?;
      if works { staged := None; }
      if !delivered || !answered { return NoReply(timedOut); }
      assert "Removed "[0] != "Failed to remove"[0];
      return Reply(true, [if works then "Removed " else "Failed to remove"], None);
    }
  }

  // ----- The write

  datatype Status = TimedOut | DeviceError

  /** `mayRemain`: the message says the staging file may be left behind. */
  datatype WriteFailure = WriteFailure(status: Status, mayRemain: bool)

  datatype StepResult = Answered(reply: Reply) | Failure(status: Status, refusal: Option<Reply>)

  /** What one round trip comes to: no answer, a refusal, or an answer. */
  function Judge(r: Reply): StepResult {
    match r
    case NoReply(timedOut) => Failure(if timedOut then TimedOut else DeviceError, None)
    case Reply(ok, _, _) => if ok then Answered(r) else Failure(DeviceError, Some(r))
  }

  /** Paths the device shell would split or glob, and the card, have no atomic
      replace. */
  predicate RefusedPath(path: string) {
    (exists i :: 0 <= i < |path| && path[i] in {' ', '\t', '\r', '\n', '*', '?'})
    || path == "/sd" || "/sd/" <= path
  }

  /** One word without a glob, and not on the card. */
  predicate Takes(path: string) {
    (forall c :: c in path ==> c != ' ' && c != '\t' && c != '\r' && c != '\n' && c != '*' && c != '?')
    && path != "/sd" && (|path| < 4 || path[..4] != "/sd/")
  }

  lemma TakenIffNotRefused(path: string)
    ensures Takes(path) <==> !RefusedPath(path)
  {
    if i :| 0 <= i < |path| && path[i] in {' ', '\t', '\r', '\n', '*', '?'} { assert path[i] in path; }
  }

  /** Every command after the trail `was` left the target at `held`. */
  ghost predicate Held(was: seq<Option<Bytes>>, trail: seq<Option<Bytes>>, held: Option<Bytes>) {
    was <= trail && forall i :: |was| <= i < |trail| ==> trail[i] == held
  }

  method Cleanup(device: Device, status: Status) returns (f: WriteFailure)
    modifies device
    ensures device.target == old(device.target)
    ensures f.status == status && (!f.mayRemain ==> device.staged == None)
    ensures device.faults >= old(device.faults)
    ensures device.trips == old(device.trips) + 1 && device.trail == old(device.trail) + [device.target]
  {
    var r := device.Remove();
    f := WriteFailure(status, !(r.Reply? && OutputHasPrefix(r.output, "Removed ")));
  }

  /** What is staged after the first `sent` bytes were acknowledged: perhaps less,
      but if no shorter, then exactly those bytes. */
  ghost predicate StagedUpTo(staged: Option<Bytes>, content: Bytes, sent: nat)
    requires sent <= |content|
  {
    staged.Some? && |staged.value| <= sent && (|staged.value| == sent ==> staged.value == content[..sent])
  }

  /** One acknowledged chunk more. */
  lemma ChunkExtends(base: Bytes, content: Bytes, start: nat, end: nat, k: nat)
    requires start <= end <= |content| && k <= end - start
    requires StagedUpTo(Some(base), content, start)
    ensures StagedUpTo(Some(base + content[start..end][..k]), content, end)
  {
    if |base| + k == end {
      assert base == content[..start] && content[start..end][..k] == content[start..end];
      assert content[..start] + content[start..end] == content[..end];
    }
  }

  /** The chunk loop, up to the first failure and its cleanup. */
  method SendChunks(device: Device, staged: string, content: Bytes) returns (failure: Option<WriteFailure>)
    modifies device
    ensures device.target == old(device.target)
    ensures Held(old(device.trail), device.trail, old(device.target))
    ensures |device.trail| - |old(device.trail)| == device.trips - old(device.trips)
    ensures failure.None? ==> device.trips == old(device.trips) + WriteChunkCount(|content|)
                              && (content != [] ==> StagedUpTo(device.staged, content, |content|))
    ensures failure.Some? ==> device.trips <= old(device.trips) + WriteChunkCount(|content|) + 1
                              && (!failure.value.mayRemain && device.trips > old(device.trips) + 1 ==>
                                  device.staged == None)
    // Only a fault on the way fails it, and then everything is staged.
    ensures device.faults >= old(device.faults)
    ensures device.faults == old(device.faults) ==> failure.None?
    ensures device.faults == old(device.faults) ==>
              device.staged == if content == [] then old(device.staged) else Some(content)
  {
    var total := WriteChunkCount(|content|);
    var i := 0;
    while i < total
      invariant 0 <= i <= total
      invariant device.target == old(device.target)
      invariant device.trips == old(device.trips) + i && |device.trail| == |old(device.trail)| + i
      invariant Held(old(device.trail), device.trail, old(device.target))
      invariant i > 0 ==> StagedUpTo(device.staged, content, Min(i * WRITE_CHUNK_SIZE, |content|))
      invariant device.faults >= old(device.faults)
      invariant device.faults == old(device.faults) ==>
                  device.staged == if i == 0 then old(device.staged)
                                   else Some(content[..Min(i * WRITE_CHUNK_SIZE, |content|)])
    {
      var start := i * WRITE_CHUNK_SIZE;
      var end := Min(start + WRITE_CHUNK_SIZE, |content|);
      var chunk := content[start..end];
      ghost var base := if i > 0 then device.staged.value else [];
      var r := device.WriteChunk(staged, chunk, i > 0);
      var step := Judge(r);
      if step.Failure? {
        // Refused on the opening fs.write: no staging file exists yet.
        if i == 0 && step.refusal.Some? {
          return Some(WriteFailure(step.status, false));
        }
        var f := Cleanup(device, step.status);
        return Some(f);
      }
      var acked := AckedBytes(r.output, staged);
      if acked.None? || acked.value != |chunk| {
        var f := Cleanup(device, DeviceError);
        return Some(f);
      }
      ghost var k :| 0 <= k <= |chunk| && device.staged == Some(base + chunk[..k]);
      ChunkExtends(base, content, start, end, k);
      assert content[..start] + chunk == content[..end];
      i := i + 1;
    }
    assert content[..|content|] == content;
    return None;
  }

  /** None is success. `renamed`: the rename command was sent. */
  method StagedWrite(device: Device, path: string, content: Bytes)
    returns (failure: Option<WriteFailure>, ghost renamed: bool)
    modifies device
    ensures failure.None? ==> device.target == Some(content) && device.staged == None
    ensures failure.Some? && !renamed ==> device.target == old(device.target)
    ensures failure.Some? ==> device.target == old(device.target) || device.target == Some(content)
    // At every step, the target held exactly the old or exactly the whole new content.
    ensures old(device.trail) <= device.trail
    ensures forall i :: |old(device.trail)| <= i < |device.trail| ==>
              device.trail[i] == old(device.target) || device.trail[i] == Some(content)
    // Only the last two commands, the rename and its cleanup, can come after the change.
    ensures forall i :: |old(device.trail)| <= i < |device.trail| - 2 ==> device.trail[i] == old(device.target)
    ensures |device.trail| - |old(device.trail)| == device.trips - old(device.trips) <= WriteSteps(|content|)
    ensures RefusedPath(path) ==>
      failure.Some? && device.trips == old(device.trips) && device.staged == old(device.staged)
    // A failure past the first command leaves no staging file unless it says so.
    ensures failure.Some? && !failure.value.mayRemain && device.trips > old(device.trips) + 1 ==> device.staged == None
    // Any content goes through to a path the code accepts unless something failed on the
    // way; an empty one only over an empty staging file, because it sends no chunk.
    ensures device.faults >= old(device.faults)
    ensures device.faults == old(device.faults) ==>
              (failure.None? <==> Takes(path) && (content != [] || old(device.staged) == Some([])))
  {
    renamed := false;
    TakenIffNotRefused(path);
    if RefusedPath(path) {
      return Some(WriteFailure(DeviceError, false)), false;
    }
    failure := SendChunks(device, path + STAGED_SUFFIX, content);
    if failure.Some? { return failure, false; }
    // The ack counts bytes before the close, which can still fail.
    var sized := device.Size();
    var step := Judge(sized);
    if step.Failure? {
      var f := Cleanup(device, step.status);
      return Some(f), false;
    }
    if sized.total.None? || sized.total.value != |content| {
      var f := Cleanup(device, DeviceError);
      return Some(f), false;
    }
    assert content[..|content|] == content;
    assert device.staged == Some(content);
    renamed := true;
    var moved := device.Rename();
    step := Judge(moved);
    if step.Failure? {
      var f := Cleanup(device, step.status);
      return Some(f), true;
    }
    if !OutputHasPrefix(moved.output, "Renamed ") {
      var f := Cleanup(device, DeviceError);
      return Some(f), true;
    }
    return None, true;
  }

  function Min(a: int, b: int): int {
    if a < b then a else b
  }
}
