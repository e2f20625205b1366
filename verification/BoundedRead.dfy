/** Reading a remote file into memory, but never more than a limit of it. The server answers as it likes:
    its reply may depend on everything, including how many reads came before. */
module BoundedRead {
  import opened Prelude
  import opened Files

  const READ_CHUNK: nat := 1024 * 1024
  const MAX_U64: nat := 0xFFFF_FFFF_FFFF_FFFF

  /** The reply to a read, given the number of reads before it, the offset and the number of bytes asked for. */
  type Server = (nat, nat, nat) -> Result<Bytes>

  /** One read: the bytes received before it, which say its offset, what it asked for and what came back. */
  datatype Read = Read(before: Bytes, requested: nat, reply: Result<Bytes>)

  /** Every chunk the server sends is the part of the file that was asked for, or a beginning of it. */
  ghost predicate Honest(server: Server, file: Bytes) {
    forall t: nat, offset: nat, n: nat ::
        server(t, offset, n).Ok? ==> IsPart(server(t, offset, n).value, file, offset, n)
  }

  predicate IsPart(chunk: Bytes, file: Bytes, offset: nat, n: nat) {
    |chunk| <= n && (chunk == [] || (offset + |chunk| <= |file| && chunk == file[offset..offset + |chunk|]))
  }

  ghost predicate NeverFails(server: Server) {
    forall t: nat, offset: nat, n: nat :: server(t, offset, n).Ok?
  }

  /** Only at the end of the file is a read empty. */
  ghost predicate Progresses(server: Server, file: Bytes) {
    forall t: nat, offset: nat, n: nat :: 0 < n && offset < |file| && server(t, offset, n).Ok? ==>
      server(t, offset, n).value != []
  }

  /** Only at the end of the file is a read short. */
  ghost predicate ShortOnlyAtEnd(server: Server, file: Bytes) {
    forall t: nat, offset: nat, n: nat :: offset <= |file| && server(t, offset, n).Ok? ==>
      |server(t, offset, n).value| == Min(n, |file| - offset)
  }

  function Received(asked: seq<Read>): Bytes {
    if asked == [] then [] else After(asked[|asked| - 1])
  }

  function After(read: Read): Bytes {
    if read.reply.Ok? then read.before + read.reply.value else read.before
  }

  /** The reads follow one another through the file, ask for at least one byte and at most one chunk, and never
      for more than one byte beyond the limit; all but the last one were answered within what they asked for. */
  ghost predicate WellAsked(asked: seq<Read>, server: Server, limit: nat) {
    && (asked != [] ==> asked[0].before == [])
    && (forall i :: 0 <= i < |asked| ==> WellAskedAt(asked[i], i, server, limit))
    && (forall i, j :: 0 <= i && j == i + 1 < |asked| ==> Follows(asked[i], asked[j]))
  }

  predicate Follows(read: Read, next: Read) {
    IsAccepted(read) && next.before == After(read)
  }

  predicate WellAskedAt(read: Read, tick: nat, server: Server, limit: nat) {
    && 0 < read.requested <= 1_048_576
    && |read.before| + read.requested <= limit + 1
    && read.reply == server(tick, |read.before|, read.requested)
  }

  predicate AsksForAllOf(read: Read, reported: Option<nat>, limit: nat) {
    var wanted := (if reported.Some? then reported.value else limit + 1) - |read.before|;
    read.requested == if wanted < 1_048_576 then wanted else 1_048_576
  }

  predicate IsShort(read: Read) {
    read.reply.Ok? && |read.reply.value| < read.requested
  }

  /** Every read asks for all that is still wanted, up to 1 MiB, and without a reported size a short one is the last. */
  ghost predicate AsksForAll(asked: seq<Read>, reported: Option<nat>, limit: nat) {
    && (forall i :: 0 <= i < |asked| ==> AsksForAllOf(asked[i], reported, limit))
    && (reported.None? ==> forall i :: 0 <= i < |asked| - 1 ==> !IsShort(asked[i]))
  }

  lemma OneMoreAsk(asked: seq<Read>, read: Read, reported: Option<nat>, limit: nat)
    requires AsksForAll(asked, reported, limit) && AsksForAllOf(read, reported, limit)
    requires reported.None? && asked != [] ==> !IsShort(asked[|asked| - 1])
    ensures AsksForAll(asked + [read], reported, limit)
  {
  }

  predicate IsAccepted(read: Read) {
    read.reply.Ok? && |read.reply.value| <= read.requested
  }

  lemma OneMoreRead(asked: seq<Read>, read: Read, server: Server, limit: nat)
    requires WellAsked(asked, server, limit) && WellAskedAt(read, |asked|, server, limit)
    requires if asked == [] then read.before == [] else Follows(asked[|asked| - 1], read)
    ensures WellAsked(asked + [read], server, limit)
  {
  }

  /** How the reading ended, told from the reads alone. */
  predicate Ended(asked: seq<Read>, reported: Option<nat>, limit: nat, r: Result<Bytes>) {
    if asked == [] then
      reported == Some(0) && r == Ok([])
    else
      var last := asked[|asked| - 1];
      if last.reply.Err? then r == last.reply
      else if !IsAccepted(last) then r == Err(Failure(Io))
      else if |After(last)| > limit then r == Err(Failure(InvalidInput))
      else if reported.None? then r == Ok(After(last)) && |last.reply.value| < last.requested
      else if |After(last)| == reported.value then r == Ok(After(last))
      else |After(last)| < reported.value && r == Err(Failure(Io)) && last.reply.value == []
  }

  method ReadChunks(server: Server, reported: Option<nat>, limit: nat)
    returns (r: Result<Bytes>, ghost asked: seq<Read>)
    requires limit < MAX_U64 && (reported.Some? ==> reported.value <= limit)
    ensures WellAsked(asked, server, limit)
    ensures reported.Some? ==> |Received(asked)| <= reported.value || !IsAccepted(asked[|asked| - 1])
    ensures Ended(asked, reported, limit, r)
    ensures AsksForAll(asked, reported, limit)
    ensures r.Ok? ==> |r.value| <= limit && (reported.Some? ==> |r.value| == reported.value)
  {
    asked := [];
    var bytes: Bytes := [];
    var offset, tick := 0, 0;
    while true
      invariant offset == |bytes| <= limit && tick == |asked|
      invariant reported.Some? ==> offset <= reported.value <= limit
      invariant bytes == Received(asked)
      invariant WellAsked(asked, server, limit)
      invariant asked != [] ==> IsAccepted(asked[|asked| - 1])
      invariant AsksForAll(asked, reported, limit)
      invariant reported.None? && asked != [] ==> !IsShort(asked[|asked| - 1])
      invariant offset == 0 <==> asked == []
      decreases limit - offset
    {
      if reported.Some? && offset >= reported.value {
        break;
      }
      var hardRemaining: nat := limit + 1 - |bytes|;
      var advertisedRemaining: nat := if reported.Some? then reported.value - offset else hardRemaining;
      var requested := Min(Min(hardRemaining, advertisedRemaining), READ_CHUNK);
      if requested == 0 {
        assert false;
      }
      var reply := server(tick, offset, requested);
      OneMoreRead(asked, Read(bytes, requested, reply), server, limit);
      OneMoreAsk(asked, Read(bytes, requested, reply), reported, limit);
      asked, tick := asked + [Read(bytes, requested, reply)], tick + 1;
      if reply.Err? {
        return reply, asked;
      }
      var chunk := reply.value;
      if |chunk| > requested {
        return Err(Failure(Io)), asked;
      }
      if chunk == [] {
        assert bytes + chunk == bytes;
        if reported.Some? && offset < reported.value {
          return Err(Failure(Io)), asked;
        }
        break;
      }
      offset := offset + |chunk|;
      bytes := bytes + chunk;
      if |bytes| > limit {
        return Err(Failure(InvalidInput)), asked;
      }
      if reported.None? && |chunk| < requested {
        break;
      }
    }
    r := Ok(bytes);
  }

  /** What an honest server sends in turn is a beginning of its file. */
  lemma {:induction false} ReceivedIsPrefix(asked: seq<Read>, server: Server, limit: nat, file: Bytes, i: nat)
    requires WellAsked(asked, server, limit) && Honest(server, file) && i < |asked|
    ensures asked[i].before <= file && After(asked[i]) <= file
    ensures asked[i].reply.Ok? ==> |asked[i].reply.value| <= asked[i].requested
    decreases i
  {
    if i > 0 {
      ReceivedIsPrefix(asked, server, limit, file, i - 1);
      assert Follows(asked[i - 1], asked[i]);
    }
    var read := asked[i];
    assert WellAskedAt(read, i, server, limit);
    if read.reply.Ok? {
      assert IsPart(read.reply.value, file, |read.before|, read.requested);
    }
  }

  /** With a reported size within the limit, a healthy and honest server makes the reading return exactly that
      many bytes, or an error if the file is shorter. */
  lemma ReportedSizeIsRead(asked: seq<Read>, server: Server, size: nat, limit: nat, file: Bytes, r: Result<Bytes>)
    requires WellAsked(asked, server, limit) && Ended(asked, Some(size), limit, r) && size <= limit
    requires Honest(server, file) && NeverFails(server) && Progresses(server, file)
    requires |Received(asked)| <= size
    ensures r == if size <= |file| then Ok(file[..size]) else Err(Failure(Io))
  {
    if asked != [] {
      var last := asked[|asked| - 1];
      ReceivedIsPrefix(asked, server, limit, file, |asked| - 1);
      assert WellAskedAt(last, |asked| - 1, server, limit);
      assert After(last) == file[..|After(last)|];
    }
  }

  /** Without a reported size, reads that are short at the end of the file only make it return the whole file, or
      the error about the limit. */
  lemma WholeFileIsRead(asked: seq<Read>, server: Server, limit: nat, file: Bytes, r: Result<Bytes>)
    requires WellAsked(asked, server, limit) && Ended(asked, None, limit, r)
    requires Honest(server, file) && NeverFails(server) && ShortOnlyAtEnd(server, file)
    ensures r == if |file| <= limit then Ok(file) else Err(Failure(InvalidInput))
  {
    var last := asked[|asked| - 1];
    ReceivedIsPrefix(asked, server, limit, file, |asked| - 1);
    assert WellAskedAt(last, |asked| - 1, server, limit);
    assert |last.reply.value| == Min(last.requested, |file| - |last.before|);
    assert After(last) == file[..|After(last)|] && file[..|file|] == file;
  }

  method ReadRemoteBytesBounded(server: Server, reported: Option<nat>, limit: nat, ghost file: Bytes)
    returns (r: Result<Bytes>, ghost asked: seq<Read>)
    requires limit < MAX_U64
    // Whatever the server does:
    ensures WellAsked(asked, server, limit)
    ensures reported.Some? && reported.value > limit ==> r == Err(Failure(InvalidInput)) && asked == []
    ensures r.Ok? ==> r.value == Received(asked) && |r.value| <= limit
    ensures r.Ok? && reported.Some? ==> |r.value| == reported.value
    ensures AsksForAll(asked, reported, limit)
    ensures asked != [] && asked[|asked| - 1].reply.Err? ==> r == asked[|asked| - 1].reply
    // If it is honest:
    ensures Honest(server, file) && r.Ok? ==> r.value <= file
    ensures Honest(server, file) && NeverFails(server) && Progresses(server, file)
            && reported.Some? && reported.value <= limit ==>
              r == if reported.value <= |file| then Ok(file[..reported.value]) else Err(Failure(Io))
    ensures Honest(server, file) && NeverFails(server) && ShortOnlyAtEnd(server, file) && reported.None? ==>
              r == if |file| <= limit then Ok(file) else Err(Failure(InvalidInput))
  {
    if reported.Some? && reported.value > limit {
      return Err(Failure(InvalidInput)), [];
    }
    r, asked := ReadChunks(server, reported, limit);
    if Honest(server, file) {
      if asked != [] {
        ReceivedIsPrefix(asked, server, limit, file, |asked| - 1);
      }
      if reported.Some? && NeverFails(server) && Progresses(server, file) {
        ReportedSizeIsRead(asked, server, reported.value, limit, file, r);
      }
      if reported.None? && NeverFails(server) && ShortOnlyAtEnd(server, file) {
        WholeFileIsRead(asked, server, limit, file, r);
      }
    }
  }
}
