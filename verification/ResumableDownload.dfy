/** Range-based resume against an arbitrary server that follows HTTP range semantics (sections 14.2, 14.4 and 15.3.7 of
    RFC 9110): it may restart, hide the size, or drop the connection anywhere. */
module ResumableDownload {
  import opened Wrappers
  import opened Headers
  import opened Sequences

  type Byte = bv8

  /** An error before the body (connection, status 4xx or 5xx), or a head and the chunks received until the end or a drop. */
  datatype Reply = Failed | Reply(head: Head, chunks: seq<seq<Byte>>, dropped: bool)

  /** A full answer; the body may stop early, noticed or not. */
  predicate Full(r: Reply, content: seq<Byte>) {
    r.Reply? && WholeHead(r.head, |content|) && Join(r.chunks) <= content
  }

  /** An answer with the bytes `first` up to `end`; the body may stop early, noticed or not. */
  predicate Part(r: Reply, content: seq<Byte>, start: nat, first: nat, end: nat) {
    r.Reply? && PartialHead(r.head, |content|, start, first, end) && Join(r.chunks) <= content[first..end]
  }

  /** The reply fits the content for a request starting at `start`. */
  ghost predicate Conforming(r: Reply, content: seq<Byte>, start: nat) {
    r.Failed? || Full(r, content) || exists first, end :: Part(r, content, start, first, end)
  }

  /** Attempt number and first byte requested to the reply. */
  type Server = (nat, nat) -> Reply

  ghost predicate ConformingServer(server: Server, content: seq<Byte>) {
    forall attempt, start :: Conforming(server(attempt, start), content, start)
  }

  datatype State = State(file: Option<seq<Byte>>, bytesHave: nat, totalSize: Option<nat>)

  function SizeOf(file: Option<seq<Byte>>): nat {
    if file.Some? then |file.value| else 0
  }

  /** The state after an exception: the size is read from disk again. */
  function Refreshed(s: State): State {
    s.(bytesHave := SizeOf(s.file))
  }

  /** Discarding a partial file that the server answered with status 200. */
  function Restarted(s: State, r: Reply): State
    requires r.Reply?
  {
    if s.bytesHave > 0 && r.head.status == 200 then s.(file := None, bytesHave := 0) else s
  }

  function Told(s: State, r: Reply): State
    requires r.Reply? && ReadableLength(r.head)
  {
    var total := TotalSize(r.head, s.bytesHave);
    if total.Some? then s.(totalSize := total) else s
  }

  /** Opening for append or for writing anew, and writing the chunks. */
  function Received(s: State, chunks: seq<seq<Byte>>): State {
    var kept := if s.bytesHave > 0 && s.file.Some? then s.file.value else [];
    s.(file := Some(kept + Join(chunks)), bytesHave := s.bytesHave + |Join(chunks)|)
  }

  /** One attempt: the state after it, and whether the call returns. */
  function Attempt(s: State, r: Reply): (State, bool)
    requires r.Reply? ==> ReadableLength(r.head)
  {
    if r.Failed? then (Refreshed(s), false)
    else
      var t := Received(Told(Restarted(s, r), r), r.chunks);
      if r.dropped || (t.totalSize.Some? && t.bytesHave != t.totalSize.value) then (Refreshed(t), false) else (t, true)
  }

  /** All attempts from number `attempt` on; false when the retries are exhausted. */
  function Attempts(s: State, server: Server, attempt: nat, maxRetries: nat): (State, bool)
    requires forall a, b :: server(a, b).Reply? ==> ReadableLength(server(a, b).head)
    decreases maxRetries - attempt
  {
    if attempt >= maxRetries then (s, false)
    else
      var (t, done) := Attempt(s, server(attempt, s.bytesHave));
      if done then (t, true) else Attempts(t, server, attempt + 1, maxRetries)
  }

  // ---- One attempt ----

  /** At the start of an attempt the size of the file is known. */
  predicate Sized(s: State) {
    s.bytesHave == SizeOf(s.file)
  }

  /** And the file is a prefix of the content. */
  predicate Prefix(s: State, content: seq<Byte>) {
    Sized(s) && (s.file.Some? ==> s.file.value <= content)
  }

  predicate RightTotal(s: State, content: seq<Byte>) {
    s.totalSize.Some? ==> s.totalSize.value == |content|
  }

  lemma ConformingReadable(server: Server, content: seq<Byte>)
    requires ConformingServer(server, content)
    ensures forall a, b :: server(a, b).Reply? ==> ReadableLength(server(a, b).head)
  {
    forall a, b | server(a, b).Reply? ensures ReadableLength(server(a, b).head) {
      ReplyReadable(server(a, b), content, b);
    }
  }

  lemma ReplyReadable(r: Reply, content: seq<Byte>, start: nat)
    requires Conforming(r, content, start)
    ensures r.Reply? ==> ReadableLength(r.head)
  {
    hide WholeHead, PartialHead, ReadableLength;
    if Full(r, content) {
      WholeTotal(r.head, |content|);
    } else if first, end :| Part(r, content, start, first, end) {
      PartialTotal(r.head, |content|, start, first, end);
    }
  }

  /** The state after the chunks of an answer were written. */
  function Answered(s: State, r: Reply): State
    requires r.Reply? && ReadableLength(r.head)
  {
    Received(Told(Restarted(s, r), r), r.chunks)
  }

  /** An attempt returns when nothing was dropped and a known total is met. */
  lemma AttemptEnds(s: State, r: Reply)
    requires r.Reply? && ReadableLength(r.head)
    ensures var t := Answered(s, r);
            Attempt(s, r) ==
            if r.dropped || (t.totalSize.Some? && t.bytesHave != t.totalSize.value) then (Refreshed(t), false) else (t, true)
  {
  }

  lemma FullAnswer(s: State, r: Reply, content: seq<Byte>)
    requires Sized(s) && Full(r, content)
    ensures ReadableLength(r.head)
    ensures var t := Answered(s, r);
            && t.file == Some(Join(r.chunks)) && t.bytesHave == |Join(r.chunks)|
            && t.totalSize == if r.head.contentLength.Some? then Some(|content|) else s.totalSize
  {
    hide TotalSize, Join, ReadableLength;
    WholeTotal(r.head, |content|);
    assert [] + Join(r.chunks) == Join(r.chunks);
  }

  /** A partial answer is appended to whatever the file holds. */
  lemma PartAnswer(s: State, r: Reply, content: seq<Byte>, first: nat, end: nat)
    requires Sized(s) && Part(r, content, s.bytesHave, first, end)
    ensures ReadableLength(r.head) && s.file.Some?
    ensures var t, told := Answered(s, r), TellsTotal(r.head, |content|, first, end);
            && t.file == Some(s.file.value + Join(r.chunks)) && t.bytesHave == s.bytesHave + |Join(r.chunks)|
            && t.totalSize == if told then Some(|content|)
                              else if r.head.contentLength.Some? then Some(s.bytesHave + (end - first)) else s.totalSize
  {
    hide TotalSize, Join, ReadableLength, TellsTotal;
    PartialTotal(r.head, |content|, s.bytesHave, first, end);
  }

  /** After a partial answer the file is a prefix of the content exactly when the bytes received are those at the
      requested offset. */
  lemma PrefixKeptIff(s: State, r: Reply, content: seq<Byte>, first: nat, end: nat)
    requires Prefix(s, content) && Part(r, content, s.bytesHave, first, end)
    ensures ReadableLength(r.head)
    ensures Prefix(Attempt(s, r).0, content) <==> Join(r.chunks) <= content[s.bytesHave..]
  {
    hide TotalSize, Join, ReadableLength, PartialHead, Answered, Attempt;
    PartAnswer(s, r, content, first, end);
    AttemptEnds(s, r);
    AppendsPrefix(s.file.value, Join(r.chunks), content);
    PartStarts(r, content, s.bytesHave, first, end);
  }

  lemma PartStarts(r: Reply, content: seq<Byte>, start: nat, first: nat, end: nat)
    requires Part(r, content, start, first, end)
    ensures 0 < start <= first < end <= |content|
  {
  }

  lemma AppendsPrefix(file: seq<Byte>, more: seq<Byte>, content: seq<Byte>)
    requires file <= content
    ensures file + more <= content <==> more <= content[|file|..]
  {
    assert content == file + content[|file|..];
    if file + more <= content { assert more == (file + more)[|file|..] == content[|file|..|file| + |more|]; }
  }

  /** Among the partial heads for a requested offset, those that keep the file a prefix whatever the content, the body
      and the drops are exactly those whose range starts at that offset. */
  lemma SafeRangeIff(h: Head, size: nat, start: nat, first: nat, end: nat)
    requires PartialHead(h, size, start, first, end)
    ensures ReadableLength(h)
    ensures (forall s, content, chunks, dropped ::
               |content| == size && Prefix(s, content) && s.bytesHave == start
               && Part(Reply(h, chunks, dropped), content, start, first, end) ==>
               Prefix(Attempt(s, Reply(h, chunks, dropped)).0, content)) <==> first == start
  {
    hide PartialHead, ReadableLength, Attempt;
    HeadStarts(h, size, start, first, end);
    if first == start {
      forall s, content, chunks, dropped
        | |content| == size && Prefix(s, content) && s.bytesHave == start
          && Part(Reply(h, chunks, dropped), content, start, first, end)
        ensures Prefix(Attempt(s, Reply(h, chunks, dropped)).0, content)
      {
        PrefixKeptIff(s, Reply(h, chunks, dropped), content, first, end);
      }
    } else {
      var s, content, r := Misplaced(h, size, start, first, end);
      assert r == Reply(h, r.chunks, false);
    }
  }

  lemma HeadStarts(h: Head, size: nat, start: nat, first: nat, end: nat)
    requires PartialHead(h, size, start, first, end)
    ensures 0 < start <= first < end <= size && ReadableLength(h)
  {
    PartialTotal(h, size, start, first, end);
  }

  lemma DifferingByte(content: seq<Byte>, start: nat, first: nat, end: nat)
    requires start < first < end <= |content| && content[first] == 1 && content[start] == 0
    ensures [1 as Byte] <= content[first..end] && !([1 as Byte] <= content[start..])
  {
    assert content[first..end][0] == content[first];
    assert content[start..][0] == content[start];
  }

  /** Content whose byte at the later offset differs from the one the client is missing. */
  lemma Misplaced(h: Head, size: nat, start: nat, first: nat, end: nat) returns (s: State, content: seq<Byte>, r: Reply)
    requires PartialHead(h, size, start, first, end) && start < first
    ensures ReadableLength(h) && r.Reply? && r.head == h && !r.dropped
    ensures |content| == size && Prefix(s, content) && s.bytesHave == start && Part(r, content, start, first, end)
    ensures !Prefix(Attempt(s, r).0, content)
  {
    HeadStarts(h, size, start, first, end);
    content := seq(size, i => if i == first then 1 as Byte else 0);
    s := State(Some(content[..start]), start, None);
    r := Reply(h, [[1]], false);
    JoinOne([1]);
    DifferingByte(content, start, first, end);
    hide Join, PartialHead, ReadableLength, Attempt;
    PrefixKeptIff(s, r, content, first, end);
  }

  lemma JoinOne(chunk: seq<Byte>)
    ensures Join([chunk]) == chunk
  {
    assert [chunk][..0] == [];
  }

  lemma SmallRanges()
    ensures ContentRange(2, 3, 3, false) == "bytes 2-2/*" && ContentRange(1, 2, 3, false) == "bytes 1-1/*" && Print(1) == "1"
  {
    assert Print(1) == "1" && Print(2) == "2";
  }

  lemma SmallPart(h: Head, first: nat, byte: Byte)
    requires h == Head(206, Some(ContentRange(first, first + 1, 3, false)), h.contentLength) && 1 <= first <= 2
    requires h.contentLength.None? || h.contentLength == Some(Print(1))
    requires byte == [0 as Byte, 1, 2][first]
    ensures Part(Reply(h, [[byte]], false), [0, 1, 2], 1, first, first + 1)
  {
    hide ContentRange, Print;
    JoinOne([byte]);
    assert [0 as Byte, 1, 2][first..first + 1] == [byte];
  }

  /** A part that starts too late: the file is no longer a prefix, and the call returns. */
  lemma LaterRangeMisplaces()
    ensures var content, r := [0 as Byte, 1, 2], Reply(Head(206, Some("bytes 2-2/*"), None), [[2]], false);
            && Part(r, content, 1, 2, 3) && ReadableLength(r.head)
            && Attempt(State(Some([0]), 1, None), r) == (State(Some([0, 2]), 2, None), true)
            && !([0 as Byte, 2] <= content)
  {
    hide ContentRange, Print, Part, Attempt, Answered, ReadableLength, Join;
    var r, s := Reply(Head(206, Some("bytes 2-2/*"), None), [[2]], false), State(Some([0]), 1, None);
    SmallRanges();
    SmallPart(r.head, 2, 2);
    RangeHides(2, 3, 3);
    PartAnswer(s, r, [0, 1, 2], 2, 3);
    AttemptEnds(s, r);
    JoinOne([2]);
    assert [0 as Byte] + [2] == [0, 2] && [0 as Byte, 2][1] != [0 as Byte, 1, 2][1];
    assert Answered(s, r) == State(Some([0, 2]), 2, None);
  }

  /** A part that ends early and hides the total: its length is taken for the rest, and the call returns. */
  lemma ShortRangeTruncates()
    ensures var content, r := [0 as Byte, 1, 2], Reply(Head(206, Some("bytes 1-1/*"), Some("1")), [[1]], false);
            && Part(r, content, 1, 1, 2) && ReadableLength(r.head)
            && Attempt(State(Some([0]), 1, None), r) == (State(Some([0, 1]), 2, Some(2)), true)
  {
    hide ContentRange, Print, Part, Attempt, Answered, ReadableLength, Join;
    var r, s := Reply(Head(206, Some("bytes 1-1/*"), Some("1")), [[1]], false), State(Some([0]), 1, None);
    SmallRanges();
    SmallPart(r.head, 1, 1);
    RangeHides(1, 2, 3);
    PartAnswer(s, r, [0, 1, 2], 1, 2);
    AttemptEnds(s, r);
    JoinOne([1]);
    assert [0 as Byte] + [1] == [0, 1];
    assert Answered(s, r) == State(Some([0, 1]), 2, Some(2));
  }

  // ---- Answers that start where they should ----

  /** A full answer, or a part that starts at the requested offset. */
  ghost predicate Aligned(r: Reply, content: seq<Byte>, start: nat) {
    r.Failed? || Full(r, content) || exists end :: Part(r, content, start, start, end)
  }

  /** What a client can read from a partial head before trusting it: it tells the total, or claims no length, or reaches
      the end. */
  predicate HonestPart(h: Head, size: nat, start: nat, end: nat) {
    start < end && (TellsTotal(h, size, start, end) || h.contentLength.None? || end == size)
  }

  ghost predicate Trusted(r: Reply, content: seq<Byte>, start: nat) {
    || r.Failed? || Full(r, content)
    || exists end :: Part(r, content, start, start, end) && HonestPart(r.head, |content|, start, end)
  }

  /** The answer lets the client work out the size. */
  predicate TellsSize(r: Reply, content: seq<Byte>, start: nat) {
    r.Reply? && ReadableLength(r.head) && TotalSize(r.head, if r.head.status == 200 then 0 else start).Some?
  }

  lemma TrustedIsAligned(r: Reply, content: seq<Byte>, start: nat)
    requires Trusted(r, content, start)
    ensures Aligned(r, content, start) && Conforming(r, content, start)
  {
    hide Part, Full;
    if !r.Failed? && !Full(r, content) {
      var end: nat :| Part(r, content, start, start, end) && HonestPart(r.head, |content|, start, end);
    }
  }

  /** The part of the content that an answer was to bring. */
  function Remaining(r: Reply, content: seq<Byte>, start: nat): seq<Byte>
    requires r.Reply? && start <= |content|
  {
    if r.head.status == 200 then content else content[start..]
  }

  /** An aligned answer keeps the file a prefix, which is all of the content exactly when all that remained arrived. */
  lemma AlignedKeepsPrefix(s: State, r: Reply, content: seq<Byte>)
    requires Prefix(s, content) && Aligned(r, content, s.bytesHave) && r.Reply?
    ensures ReadableLength(r.head)
    ensures var t := Answered(s, r);
            && Prefix(t, content) && Join(r.chunks) <= Remaining(r, content, s.bytesHave)
            && t.file.Some? && (t.file.value == content <==> Join(r.chunks) == Remaining(r, content, s.bytesHave))
  {
    hide TotalSize, Join, ReadableLength, PartialHead, WholeHead, Answered;
    if Full(r, content) {
      FullAnswer(s, r, content);
      FullStatus(r, content);
    } else {
      var end: nat :| Part(r, content, s.bytesHave, s.bytesHave, end);
      PartStatus(r, content, s.bytesHave, s.bytesHave, end);
      PartAnswer(s, r, content, s.bytesHave, end);
      PartStarts(r, content, s.bytesHave, s.bytesHave, end);
      AppendsPrefix(s.file.value, Join(r.chunks), content);
      assert content == s.file.value + content[s.bytesHave..];
      assert content[s.bytesHave..end] <= content[s.bytesHave..];
    }
  }

  lemma FullStatus(r: Reply, content: seq<Byte>)
    requires Full(r, content)
    ensures r.head.status == 200
  {
  }

  lemma PartStatus(r: Reply, content: seq<Byte>, start: nat, first: nat, end: nat)
    requires Part(r, content, start, first, end)
    ensures r.head.status == 206
  {
  }

  /** A trusted answer never spoils a right total, and gives one exactly when it tells the size. */
  lemma TrustedTotal(s: State, r: Reply, content: seq<Byte>)
    requires Sized(s) && RightTotal(s, content) && Trusted(r, content, s.bytesHave) && r.Reply?
    ensures ReadableLength(r.head)
    ensures Answered(s, r).totalSize == if TellsSize(r, content, s.bytesHave) then Some(|content|) else s.totalSize
  {
    hide TotalSize, Join, ReadableLength, PartialHead, WholeHead, Answered, TellsTotal;
    if Full(r, content) {
      FullAnswer(s, r, content);
      FullStatus(r, content);
      WholeTotal(r.head, |content|);
    } else {
      var end: nat :| Part(r, content, s.bytesHave, s.bytesHave, end) && HonestPart(r.head, |content|, s.bytesHave, end);
      PartStatus(r, content, s.bytesHave, s.bytesHave, end);
      PartAnswer(s, r, content, s.bytesHave, end);
      PartialTotal(r.head, |content|, s.bytesHave, s.bytesHave, end);
    }
  }

  /** Every trusted attempt keeps the file a prefix and the total right; one that returns with a known total leaves all
      of the content, and one whose answer arrived whole returns. */
  lemma AttemptSafe(s: State, r: Reply, content: seq<Byte>)
    requires Prefix(s, content) && RightTotal(s, content) && Trusted(r, content, s.bytesHave)
    ensures r.Reply? ==> ReadableLength(r.head)
    ensures var (t, done) := Attempt(s, r);
            && Prefix(t, content) && RightTotal(t, content)
            && (done ==> t.file.Some? && (t.totalSize.Some? ==> t.file.value == content))
            && (r.Reply? && !r.dropped && Join(r.chunks) == Remaining(r, content, s.bytesHave) ==>
                done && t.file == Some(content))
  {
    if r.Reply? {
      hide Attempt, Answered, ReadableLength, Part, Full, Join;
      TrustedIsAligned(r, content, s.bytesHave);
      AlignedKeepsPrefix(s, r, content);
      TrustedTotal(s, r, content);
      AttemptEnds(s, r);
    }
  }

  /** An answer that is not known to be dropped and is shorter than what remained. */
  predicate QuietlyShort(r: Reply, content: seq<Byte>, start: nat) {
    r.Reply? && !r.dropped && start <= |content| && |Join(r.chunks)| < |Remaining(r, content, start)|
  }

  /** A quietly short answer passes for the whole file exactly when no answer so far, itself included, told the size. */
  lemma ShortReturnsIff(s: State, r: Reply, content: seq<Byte>)
    requires Prefix(s, content) && RightTotal(s, content) && Trusted(r, content, s.bytesHave)
    requires QuietlyShort(r, content, s.bytesHave)
    ensures ReadableLength(r.head)
    ensures Attempt(s, r).1 <==> s.totalSize.None? && !TellsSize(r, content, s.bytesHave)
  {
    hide Attempt, Answered, ReadableLength, Part, Full, Join;
    TrustedIsAligned(r, content, s.bytesHave);
    AlignedKeepsPrefix(s, r, content);
    TrustedTotal(s, r, content);
    AttemptEnds(s, r);
  }

  /** Without trust: a short part passes exactly when it hides the total and either claims its own length and brings all
      of it, or claims none and no total is known. */
  lemma ShortPartReturnsIff(s: State, r: Reply, content: seq<Byte>, end: nat)
    requires Prefix(s, content) && RightTotal(s, content) && Part(r, content, s.bytesHave, s.bytesHave, end)
    requires !r.dropped && |Join(r.chunks)| < |content| - s.bytesHave
    ensures ReadableLength(r.head)
    ensures Attempt(s, r).1 <==>
            && !TellsTotal(r.head, |content|, s.bytesHave, end)
            && if r.head.contentLength.Some? then |Join(r.chunks)| == end - s.bytesHave else s.totalSize.None?
  {
    hide Attempt, Answered, ReadableLength, PartialHead, Join, TellsTotal;
    PartStarts(r, content, s.bytesHave, s.bytesHave, end);
    PartAnswer(s, r, content, s.bytesHave, end);
    AttemptEnds(s, r);
  }

  /** With the whole content already there, an attempt returns exactly when it is answered in full and without a drop, by
      the whole content again or by a short body while the size is still untold. */
  lemma CompleteFileReturnsIff(s: State, r: Reply, content: seq<Byte>)
    requires s.file == Some(content) && Sized(s) && RightTotal(s, content) && content != []
    requires Conforming(r, content, |content|)
    ensures r.Reply? ==> ReadableLength(r.head)
    ensures Attempt(s, r).1 <==>
            && r.Reply? && !r.dropped && r.head.status == 200
            && (Join(r.chunks) == content || (s.totalSize.None? && r.head.contentLength.None?))
  {
    if r.Reply? {
      hide Attempt, Answered, ReadableLength, Join;
      if first, end :| Part(r, content, |content|, first, end) {
        PartStarts(r, content, |content|, first, end);
      } else {
        FullAnswer(s, r, content);
        AttemptEnds(s, r);
        if |Join(r.chunks)| == |content| { assert Join(r.chunks) == content[..|content|]; }
      }
    }
  }

  // ---- Whole runs ----

  ghost predicate AlignedServer(server: Server, content: seq<Byte>) {
    forall attempt, start :: Aligned(server(attempt, start), content, start)
  }

  ghost predicate TrustedServer(server: Server, content: seq<Byte>) {
    forall attempt, start :: Trusted(server(attempt, start), content, start)
  }

  lemma TrustedServerConforms(server: Server, content: seq<Byte>)
    requires TrustedServer(server, content)
    ensures ConformingServer(server, content) && AlignedServer(server, content)
    ensures forall a, b :: server(a, b).Reply? ==> ReadableLength(server(a, b).head)
  {
    hide Trusted, Aligned, Conforming;
    forall a, b ensures Conforming(server(a, b), content, b) && Aligned(server(a, b), content, b) {
      assert Trusted(server(a, b), content, b);
      TrustedIsAligned(server(a, b), content, b);
    }
    ConformingReadable(server, content);
  }

  lemma AlignedServerReadable(server: Server, content: seq<Byte>)
    requires AlignedServer(server, content)
    ensures forall a, b :: server(a, b).Reply? ==> ReadableLength(server(a, b).head)
  {
    hide Part, Full, ReadableLength;
    forall a, b | server(a, b).Reply? ensures ReadableLength(server(a, b).head) {
      assert Aligned(server(a, b), content, b);
      ReplyReadable(server(a, b), content, b);
    }
  }

  lemma AttemptSized(s: State, r: Reply)
    requires Sized(s) && (r.Reply? ==> ReadableLength(r.head))
    ensures var (t, done) := Attempt(s, r);
            Sized(t) && (done ==> t.file.Some? && (t.totalSize.Some? ==> t.bytesHave == t.totalSize.value))
  {
    hide TotalSize, Join, ReadableLength;
  }

  /** Whatever the server sends, the size reported is that of the file, and a known total is met. */
  lemma {:induction false} ReturnsSized(s: State, server: Server, attempt: nat, maxRetries: nat)
    requires Sized(s) && forall a, b :: server(a, b).Reply? ==> ReadableLength(server(a, b).head)
    ensures var (t, done) := Attempts(s, server, attempt, maxRetries);
            Sized(t) && (done ==> t.file.Some? && (t.totalSize.Some? ==> t.bytesHave == t.totalSize.value))
    decreases maxRetries - attempt
  {
    hide Attempt, Sized, ReadableLength;
    if attempt < maxRetries {
      AttemptSized(s, server(attempt, s.bytesHave));
      var (t, done) := Attempt(s, server(attempt, s.bytesHave));
      if !done { ReturnsSized(t, server, attempt + 1, maxRetries); }
    }
  }

  /** When parts start where asked, what is on disk is always a prefix of the content, whatever the totals; a return with
      a known total is whole exactly when that total is right. */
  lemma {:induction false} AlignedDownload(s: State, server: Server, attempt: nat, maxRetries: nat, content: seq<Byte>)
    requires Prefix(s, content) && AlignedServer(server, content)
    ensures forall a, b :: server(a, b).Reply? ==> ReadableLength(server(a, b).head)
    ensures var (t, done) := Attempts(s, server, attempt, maxRetries);
            && Prefix(t, content)
            && (done && t.totalSize.Some? ==> (t.file == Some(content) <==> t.totalSize.value == |content|))
    decreases maxRetries - attempt
  {
    hide Attempt, Aligned, ReadableLength;
    AlignedServerReadable(server, content);
    ReturnsSized(s, server, attempt, maxRetries);
    if attempt < maxRetries {
      AlignedAttempt(s, server(attempt, s.bytesHave), content);
      var (t, done) := Attempt(s, server(attempt, s.bytesHave));
      if !done { AlignedDownload(t, server, attempt + 1, maxRetries, content); }
    }
    var end := Attempts(s, server, attempt, maxRetries).0;
    if end.file.Some? { PrefixWhole(end, content); }
  }

  lemma PrefixWhole(s: State, content: seq<Byte>)
    requires Prefix(s, content) && s.file.Some?
    ensures s.file == Some(content) <==> s.bytesHave == |content|
  {
    assert s.file.value == content[..|s.file.value|] && content[..|content|] == content;
  }

  lemma AlignedAttempt(s: State, r: Reply, content: seq<Byte>)
    requires Prefix(s, content) && Aligned(r, content, s.bytesHave) && (r.Reply? ==> ReadableLength(r.head))
    ensures Prefix(Attempt(s, r).0, content)
  {
    if r.Reply? {
      hide Attempt, Answered, ReadableLength, Part, Full, Join;
      AlignedKeepsPrefix(s, r, content);
      AttemptEnds(s, r);
    }
  }

  /** Against any trusted server and any drops: what is on disk is a prefix of the content, totals are right, and a return
      with a known total means the file is the content. */
  lemma {:induction false} DownloadSafe(s: State, server: Server, attempt: nat, maxRetries: nat, content: seq<Byte>)
    requires Prefix(s, content) && RightTotal(s, content) && TrustedServer(server, content)
    ensures forall a, b :: server(a, b).Reply? ==> ReadableLength(server(a, b).head)
    ensures var (t, done) := Attempts(s, server, attempt, maxRetries);
            && Prefix(t, content) && RightTotal(t, content)
            && (done ==> t.file.Some? && t.bytesHave == |t.file.value|)
            && (done && t.totalSize.Some? ==> t.file.value == content)
    decreases maxRetries - attempt
  {
    hide Attempt, Trusted, ReadableLength;
    TrustedServerConforms(server, content);
    if attempt < maxRetries {
      AttemptSafe(s, server(attempt, s.bytesHave), content);
      var (t, done) := Attempt(s, server(attempt, s.bytesHave));
      if !done { DownloadSafe(t, server, attempt + 1, maxRetries, content); }
    }
  }

  /** The state before attempt number k, None when the call has returned by then. */
  function Reached(s: State, server: Server, attempt: nat, k: nat): Option<State>
    requires attempt <= k && forall a, b :: server(a, b).Reply? ==> ReadableLength(server(a, b).head)
    decreases k - attempt
  {
    if attempt == k then Some(s)
    else
      var (t, done) := Attempt(s, server(attempt, s.bytesHave));
      if done then None else Reached(t, server, attempt + 1, k)
  }

  /** At attempt k a quietly short answer comes while no answer has told the size. */
  ghost predicate PassesShort(s: State, server: Server, attempt: nat, k: nat, content: seq<Byte>)
    requires attempt <= k && forall a, b :: server(a, b).Reply? ==> ReadableLength(server(a, b).head)
  {
    Reached(s, server, attempt, k).Some? &&
    var u := Reached(s, server, attempt, k).value;
    var r := server(k, u.bytesHave);
    QuietlyShort(r, content, u.bytesHave) && u.totalSize.None? && !TellsSize(r, content, u.bytesHave)
  }

  ghost predicate PassesSomewhere(s: State, server: Server, attempt: nat, maxRetries: nat, content: seq<Byte>)
    requires forall a, b :: server(a, b).Reply? ==> ReadableLength(server(a, b).head)
  {
    exists k :: attempt <= k < maxRetries && PassesShort(s, server, attempt, k, content)
  }

  /** A run returns a truncated file exactly when at some attempt a quietly short answer comes while neither it nor any
      answer before it told the size. */
  lemma {:induction false} TruncatesIff(s: State, server: Server, attempt: nat, maxRetries: nat, content: seq<Byte>)
    requires Prefix(s, content) && RightTotal(s, content) && TrustedServer(server, content)
    ensures forall a, b :: server(a, b).Reply? ==> ReadableLength(server(a, b).head)
    ensures var (t, done) := Attempts(s, server, attempt, maxRetries);
            done && t.file != Some(content) <==> PassesSomewhere(s, server, attempt, maxRetries, content)
    decreases maxRetries - attempt
  {
    hide Attempt, Trusted, ReadableLength, QuietlyShort, TellsSize;
    TrustedServerConforms(server, content);
    if attempt < maxRetries {
      var r := server(attempt, s.bytesHave);
      AttemptSafe(s, r, content);
      AttemptTruncatesIff(s, r, content);
      var (t, done) := Attempt(s, r);
      if done {
        PassesOnlyNow(s, server, attempt, maxRetries, content);
      } else {
        TruncatesIff(t, server, attempt + 1, maxRetries, content);
        PassesLater(s, server, attempt, maxRetries, content);
      }
    }
  }

  lemma PassesOnlyNow(s: State, server: Server, attempt: nat, maxRetries: nat, content: seq<Byte>)
    requires forall a, b :: server(a, b).Reply? ==> ReadableLength(server(a, b).head)
    requires attempt < maxRetries && Attempt(s, server(attempt, s.bytesHave)).1
    ensures PassesSomewhere(s, server, attempt, maxRetries, content) <==>
            PassesShort(s, server, attempt, attempt, content)
  {
    hide Attempt, ReadableLength, QuietlyShort, TellsSize;
  }

  lemma PassesLater(s: State, server: Server, attempt: nat, maxRetries: nat, content: seq<Byte>)
    requires forall a, b :: server(a, b).Reply? ==> ReadableLength(server(a, b).head)
    requires attempt < maxRetries && !Attempt(s, server(attempt, s.bytesHave)).1
    requires !PassesShort(s, server, attempt, attempt, content)
    ensures var t := Attempt(s, server(attempt, s.bytesHave)).0;
            PassesSomewhere(s, server, attempt, maxRetries, content) <==>
            PassesSomewhere(t, server, attempt + 1, maxRetries, content)
  {
    hide Attempt, ReadableLength, QuietlyShort, TellsSize;
    var t := Attempt(s, server(attempt, s.bytesHave)).0;
    forall k | attempt + 1 <= k < maxRetries
      ensures PassesShort(s, server, attempt, k, content) <==> PassesShort(t, server, attempt + 1, k, content)
    {
      assert Reached(s, server, attempt, k) == Reached(t, server, attempt + 1, k);
    }
    if PassesSomewhere(s, server, attempt, maxRetries, content) {
      var k: nat :| attempt <= k < maxRetries && PassesShort(s, server, attempt, k, content);
      assert k != attempt;
      assert PassesShort(t, server, attempt + 1, k, content);
    }
    if PassesSomewhere(t, server, attempt + 1, maxRetries, content) {
      var k: nat :| attempt + 1 <= k < maxRetries && PassesShort(t, server, attempt + 1, k, content);
      assert PassesShort(s, server, attempt, k, content);
    }
  }

  /** One attempt returns a truncated file exactly when its answer is quietly short and the size untold. */
  lemma AttemptTruncatesIff(s: State, r: Reply, content: seq<Byte>)
    requires Prefix(s, content) && RightTotal(s, content) && Trusted(r, content, s.bytesHave)
    ensures r.Reply? ==> ReadableLength(r.head)
    ensures var (t, done) := Attempt(s, r);
            done && t.file != Some(content) <==>
            QuietlyShort(r, content, s.bytesHave) && s.totalSize.None? && !TellsSize(r, content, s.bytesHave)
  {
    if r.Reply? {
      hide Attempt, Answered, ReadableLength, Part, Full, Join, TellsSize;
      TrustedIsAligned(r, content, s.bytesHave);
      AlignedKeepsPrefix(s, r, content);
      TrustedTotal(s, r, content);
      AttemptEnds(s, r);
      var rest := Remaining(r, content, s.bytesHave);
      if |Join(r.chunks)| == |rest| { assert Join(r.chunks) == rest[..|rest|]; }
    }
  }

  /** One answer that tells the size, at any attempt that was reached, rules a truncated return out. */
  lemma {:induction false} ToldMeansWhole(s: State, server: Server, attempt: nat, maxRetries: nat, content: seq<Byte>, k: nat)
    requires Prefix(s, content) && RightTotal(s, content) && TrustedServer(server, content)
    requires forall a, b :: server(a, b).Reply? ==> ReadableLength(server(a, b).head)
    requires attempt <= k < maxRetries && Reached(s, server, attempt, k).Some?
    requires var u := Reached(s, server, attempt, k).value; TellsSize(server(k, u.bytesHave), content, u.bytesHave)
    ensures var (t, done) := Attempts(s, server, attempt, maxRetries); done ==> t.file == Some(content)
    decreases maxRetries - attempt
  {
    hide Trusted, ReadableLength, TellsSize;
    DownloadSafe(s, server, attempt, maxRetries, content);
    var r := server(attempt, s.bytesHave);
    AttemptSafe(s, r, content);
    AttemptKeepsTotal(s, r, content);
    hide Attempt;
    var (t, done) := Attempt(s, r);
    if !done {
      if attempt < k {
        ToldMeansWhole(t, server, attempt + 1, maxRetries, content, k);
      } else {
        TotalStays(t, server, attempt + 1, maxRetries);
      }
    }
  }

  lemma AttemptKeepsTotal(s: State, r: Reply, content: seq<Byte>)
    requires Sized(s) && RightTotal(s, content) && Trusted(r, content, s.bytesHave) && (r.Reply? ==> ReadableLength(r.head))
    ensures TellsSize(r, content, s.bytesHave) ==> Attempt(s, r).0.totalSize.Some?
  {
    if r.Reply? {
      hide Attempt, Answered, ReadableLength, Part, Full, Join, TellsSize;
      TrustedTotal(s, r, content);
      AttemptEnds(s, r);
    }
  }

  /** A total once known stays known. */
  lemma {:induction false} TotalStays(s: State, server: Server, attempt: nat, maxRetries: nat)
    requires s.totalSize.Some? && forall a, b :: server(a, b).Reply? ==> ReadableLength(server(a, b).head)
    ensures Attempts(s, server, attempt, maxRetries).0.totalSize.Some?
    decreases maxRetries - attempt
  {
    hide TotalSize, Join, ReadableLength;
    if attempt < maxRetries {
      var (t, done) := Attempt(s, server(attempt, s.bytesHave));
      if !done { TotalStays(t, server, attempt + 1, maxRetries); }
    }
  }

  /** Without a total a short answer that ends quietly is taken for the whole file. */
  lemma UntoldMayTruncate()
    ensures var content, quiet := [1 as Byte, 2], Reply(Head(200, None, None), [[1]], false);
            && Full(quiet, content)
            && Attempt(State(None, 0, None), quiet) == (State(Some([1]), 1, None), true)
  {
    JoinOne([1]);
  }

  /** A complete file is never accepted while the server answers the range past the end with an error, such as status
      416 (section 15.5.17): every attempt fails, until the retries are exhausted. */
  lemma {:induction false} CompleteFileNeverReturns(s: State, server: Server, attempt: nat, maxRetries: nat, content: seq<Byte>)
    requires s.file == Some(content) && Sized(s) && ConformingServer(server, content)
    requires forall a :: server(a, |content|).Failed?
    ensures forall a, b :: server(a, b).Reply? ==> ReadableLength(server(a, b).head)
    ensures Attempts(s, server, attempt, maxRetries) == (s, false)
    decreases maxRetries - attempt
  {
    ConformingReadable(server, content);
    if attempt < maxRetries {
      CompleteFileNeverReturns(s, server, attempt + 1, maxRetries, content);
    }
  }

  // ---- When a run ends ----

  /** What remains between attempts: the file, and the size last told. */
  datatype Snapshot = Snapshot(file: Option<seq<Byte>>, total: Option<nat>)

  ghost predicate Readable(server: Server) {
    forall a, b :: server(a, b).Reply? ==> ReadableLength(server(a, b).head)
  }

  /** What an answer makes of the file: a full one replaces it, any other is appended, an error leaves it. */
  function After(u: Snapshot, r: Reply): Snapshot
    requires r.Reply? ==> ReadableLength(r.head)
  {
    if r.Failed? then u
    else
      var kept := if r.head.status == 200 || u.file.None? then [] else u.file.value;
      var told := TotalSize(r.head, |kept|);
      Snapshot(Some(kept + Join(r.chunks)), if told.Some? then told else u.total)
  }

  /** What is there before attempt k, if the call gets that far. */
  function Before(server: Server, start: Snapshot, k: nat): Snapshot
    requires Readable(server)
    decreases k, 0
  {
    if k == 0 then start
    else After(Before(server, start, k - 1), ReplyTo(server, start, k - 1))
  }

  function ReplyTo(server: Server, start: Snapshot, k: nat): (r: Reply)
    requires Readable(server)
    ensures r.Reply? ==> ReadableLength(r.head)
    decreases k, 1
  {
    server(k, SizeOf(Before(server, start, k).file))
  }

  /** Attempt k fails, is dropped, or leaves another size than the one last told. */
  predicate Interrupted(server: Server, start: Snapshot, k: nat)
    requires Readable(server)
  {
    var r, u := ReplyTo(server, start, k), Before(server, start, k + 1);
    r.Failed? || r.dropped || (u.total.Some? && u.total.value != SizeOf(u.file))
  }

  /** The call makes n attempts: it goes on after each interrupted one while retries are left, and returns after the first
      that is not. */
  ghost predicate Makes(server: Server, start: Snapshot, maxRetries: nat, n: nat, returned: bool)
    requires Readable(server)
  {
    && n <= maxRetries
    && (forall k :: 0 <= k < n - 1 ==> Interrupted(server, start, k))
    && if returned then n > 0 && !Interrupted(server, start, n - 1)
       else n == maxRetries && (n > 0 ==> Interrupted(server, start, n - 1))
  }

  lemma OneAttempt(u: Snapshot, r: Reply)
    requires r.Reply? ==> ReadableLength(r.head)
    ensures var (t, done) := Attempt(State(u.file, SizeOf(u.file), u.total), r);
            var v := After(u, r);
            && t == State(v.file, SizeOf(v.file), v.total)
            && (done <==> !(r.Failed? || r.dropped || (v.total.Some? && v.total.value != SizeOf(v.file))))
  {
    hide TotalSize, Join, ReadableLength;
  }

  lemma {:induction false} RunMakes(server: Server, start: Snapshot, attempt: nat, maxRetries: nat) returns (n: nat)
    requires Readable(server) && attempt <= maxRetries
    requires forall k :: 0 <= k < attempt ==> Interrupted(server, start, k)
    ensures var u := Before(server, start, attempt);
            var (t, done) := Attempts(State(u.file, SizeOf(u.file), u.total), server, attempt, maxRetries);
            var v := Before(server, start, n);
            t == State(v.file, SizeOf(v.file), v.total) && Makes(server, start, maxRetries, n, done)
    decreases maxRetries - attempt
  {
    hide Attempt, ReadableLength, After;
    if attempt == maxRetries { return attempt; }
    var u := Before(server, start, attempt);
    var r := ReplyTo(server, start, attempt);
    OneAttempt(u, r);
    assert Before(server, start, attempt + 1) == After(u, r);
    if Interrupted(server, start, attempt) {
      n := RunMakes(server, start, attempt + 1, maxRetries);
    } else {
      n := attempt + 1;
    }
  }

  /** As long as trusted answers come, the file stays a prefix and the size told right. */
  lemma {:induction false} BeforeSafe(server: Server, start: Snapshot, k: nat, content: seq<Byte>)
    requires Readable(server) && TrustedServer(server, content)
    requires Prefix(State(start.file, SizeOf(start.file), start.total), content)
    requires RightTotal(State(start.file, SizeOf(start.file), start.total), content)
    ensures var u := Before(server, start, k);
            var s := State(u.file, SizeOf(u.file), u.total);
            Prefix(s, content) && RightTotal(s, content)
  {
    hide Trusted, ReadableLength, After, Attempt;
    if k > 0 {
      BeforeSafe(server, start, k - 1, content);
      var u, r := Before(server, start, k - 1), ReplyTo(server, start, k - 1);
      AttemptSafe(State(u.file, SizeOf(u.file), u.total), r, content);
      OneAttempt(u, r);
    }
  }

  /** Attempt k comes to its end undropped, with all that remained. */
  ghost predicate Arrives(server: Server, start: Snapshot, k: nat, content: seq<Byte>)
    requires Readable(server)
  {
    var r, have := ReplyTo(server, start, k), SizeOf(Before(server, start, k).file);
    r.Reply? && !r.dropped && have <= |content| && Join(r.chunks) == Remaining(r, content, have)
  }

  lemma ArrivesWhole(server: Server, start: Snapshot, k: nat, content: seq<Byte>)
    requires Readable(server) && TrustedServer(server, content) && Arrives(server, start, k, content)
    requires Prefix(State(start.file, SizeOf(start.file), start.total), content)
    requires RightTotal(State(start.file, SizeOf(start.file), start.total), content)
    ensures !Interrupted(server, start, k) && Before(server, start, k + 1).file == Some(content)
  {
    hide Trusted, ReadableLength, After, Attempt;
    BeforeSafe(server, start, k, content);
    var u, r := Before(server, start, k), ReplyTo(server, start, k);
    AttemptSafe(State(u.file, SizeOf(u.file), u.total), r, content);
    OneAttempt(u, r);
    assert Before(server, start, k + 1) == After(u, r);
  }

  /** Drops and errors do not stop the download: when every attempt before number k is interrupted and attempt k brings
      all that remains, the call returns with the whole content. */
  lemma Resumes(server: Server, start: Snapshot, k: nat, maxRetries: nat, content: seq<Byte>)
    requires Readable(server) && TrustedServer(server, content) && k < maxRetries
    requires Prefix(State(start.file, SizeOf(start.file), start.total), content)
    requires RightTotal(State(start.file, SizeOf(start.file), start.total), content)
    requires forall i :: 0 <= i < k ==> Interrupted(server, start, i)
    requires Arrives(server, start, k, content)
    ensures var (t, done) := Attempts(State(start.file, SizeOf(start.file), start.total), server, 0, maxRetries);
            done && t.file == Some(content)
  {
    hide Interrupted, Arrives, Attempts, Trusted, ReadableLength, After;
    ArrivesWhole(server, start, k, content);
    var n := RunMakes(server, start, 0, maxRetries);
  }

  /** An attempt that fails or is dropped is interrupted, whatever it leaves. */
  lemma LostIsInterrupted(server: Server, start: Snapshot, k: nat)
    requires Readable(server)
    requires var r := ReplyTo(server, start, k); r.Failed? || r.dropped
    ensures Interrupted(server, start, k)
  {
  }

  /** A call that started with `first` on disk ends as its attempts say. */
  ghost predicate EndsAfter(server: Server, first: Option<seq<Byte>>, maxRetries: nat, file: Option<seq<Byte>>,
                            total: Option<nat>, returned: bool)
    requires Readable(server)
  {
    exists n ::
      && Makes(server, Snapshot(first, None), maxRetries, n, returned)
      && file == Before(server, Snapshot(first, None), n).file
      && (returned ==> total == Before(server, Snapshot(first, None), n).total)
  }

  /** It returns the whole content once an attempt, after interrupted ones, brings all that remains. */
  ghost predicate ReturnsWhole(server: Server, first: Option<seq<Byte>>, maxRetries: nat, content: seq<Byte>,
                               file: Option<seq<Byte>>, returned: bool)
    requires Readable(server)
  {
    var start := Snapshot(first, None);
    TrustedServer(server, content) && (first.Some? ==> first.value <= content) &&
    (exists k: nat :: k < maxRetries && Arrives(server, start, k, content) &&
                 forall i :: 0 <= i < k ==> Interrupted(server, start, i)) ==>
      returned && file == Some(content)
  }

  lemma RunEnds(server: Server, first: Option<seq<Byte>>, maxRetries: nat, content: seq<Byte>)
    requires Readable(server)
    ensures var (t, done) := Attempts(State(first, SizeOf(first), None), server, 0, maxRetries);
            && EndsAfter(server, first, maxRetries, t.file, if done then t.totalSize else None, done)
            && ReturnsWhole(server, first, maxRetries, content, t.file, done)
  {
    hide Attempts, Makes, Trusted, ReadableLength, Arrives, Interrupted;
    var start := Snapshot(first, None);
    var n := RunMakes(server, start, 0, maxRetries);
    if TrustedServer(server, content) && (first.Some? ==> first.value <= content) {
      forall k: nat | k < maxRetries && Arrives(server, start, k, content) &&
                      forall i :: 0 <= i < k ==> Interrupted(server, start, i)
        ensures var (t, done) := Attempts(State(first, SizeOf(first), None), server, 0, maxRetries);
                done && t.file == Some(content)
      {
        Resumes(server, start, k, maxRetries, content);
      }
    }
  }

  // ---- The loops on mutable state ----

  class Downloader {
    var file: Option<seq<Byte>>

    constructor (file: Option<seq<Byte>>)
      ensures this.file == file
    {
      this.file := file;
    }

    /** Writes the chunks as they come, skipping empty ones. */
    method WriteChunks(chunks: seq<seq<Byte>>, bytesBefore: nat) returns (bytesHave: nat)
      requires file.Some?
      modifies this
      ensures file == Some(old(file.value) + Join(chunks)) && bytesHave == bytesBefore + |Join(chunks)|
    {
      bytesHave := bytesBefore;
      assert chunks[..0] == [] && file.value + [] == file.value;
      for k := 0 to |chunks|
        invariant file == Some(old(file.value) + Join(chunks[..k])) && bytesHave == bytesBefore + |Join(chunks[..k])|
      {
        var chunk := chunks[k];
        assert chunks[..k + 1][..k] == chunks[..k];
        assert Join(chunks[..k + 1]) == Join(chunks[..k]) + chunk;
        assert old(file.value) + Join(chunks[..k + 1]) == file.value + chunk;
        if chunk == [] {
          assert file.value + chunk == file.value;
          continue;
        }
        file := Some(file.value + chunk);
        bytesHave := bytesHave + |chunk|;
      }
      assert chunks[..|chunks|] == chunks;
    }

    /** Returns the bytes written and the total, or None when the retries are exhausted. */
    method HttpResumableToLocal(server: Server, maxRetries: nat, ghost content: seq<Byte>)
      returns (result: Option<(nat, Option<nat>)>)
      requires ConformingServer(server, content)
      requires Readable(server)
      modifies this
      ensures var (t, done) := Attempts(State(old(file), SizeOf(old(file)), None), server, 0, maxRetries);
              && file == t.file
              && result == if done then Some((t.bytesHave, t.totalSize)) else None
      ensures EndsAfter(server, old(file), maxRetries, file, if result.Some? then result.value.1 else None, result.Some?)
      ensures ReturnsWhole(server, old(file), maxRetries, content, file, result.Some?)
      ensures result.Some? ==> file.Some? && result.value.0 == |file.value|
      ensures result.Some? && result.value.1.Some? ==> |file.value| == result.value.1.value
      ensures AlignedServer(server, content) && (old(file).Some? ==> old(file).value <= content) ==>
                && (file.Some? ==> file.value <= content)
                && (result.Some? && result.value.1.Some? ==>
                    (file.value == content <==> result.value.1.value == |content|))
      ensures TrustedServer(server, content) && (old(file).Some? ==> old(file).value <= content) ==>
                result.Some? && result.value.1.Some? ==> file.value == content
    {
      hide Conforming, Aligned, Trusted, TotalSize, Join, ReadableLength, EndsAfter, ReturnsWhole;
      var totalSize: Option<nat> := None;
      var bytesHave := SizeOf(file);
      ghost var start := State(file, bytesHave, None);
      ReturnsSized(start, server, 0, maxRetries);
      if AlignedServer(server, content) && Prefix(start, content) {
        AlignedDownload(start, server, 0, maxRetries, content);
      }
      if TrustedServer(server, content) && Prefix(start, content) {
        DownloadSafe(start, server, 0, maxRetries, content);
      }
      RunEnds(server, file, maxRetries, content);
      for attempt := 0 to maxRetries
        invariant bytesHave == SizeOf(file)
        invariant Attempts(start, server, 0, maxRetries) ==
                  Attempts(State(file, bytesHave, totalSize), server, attempt, maxRetries)
      {
        ghost var before := State(file, bytesHave, totalSize);
        var r := server(attempt, bytesHave);
        if r.Reply? {
          if bytesHave > 0 && r.head.status == 200 {
            bytesHave, file := 0, None;
          }
          var newTotal := TotalSize(r.head, bytesHave);
          if newTotal.Some? { totalSize := newTotal; }
          if bytesHave == 0 { file := Some([]); }
          bytesHave := WriteChunks(r.chunks, bytesHave);
          assert State(file, bytesHave, totalSize) == Received(Told(Restarted(before, r), r), r.chunks);
          if !r.dropped && !(totalSize.Some? && bytesHave != totalSize.value) {
            return Some((bytesHave, totalSize));
          }
        }
        bytesHave := SizeOf(file);
      }
      result := None;
    }
  }
}
