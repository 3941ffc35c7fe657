// The circular buffer between the downloading and the playing thread, under every
// interleaving.

module MediaBuffer {
  import opened Bytes

  /** The bytes in a ring, oldest first; start is -1 when there are none. */
  function Ring(s: seq<byte>, start: int, end: int): seq<byte>
    requires RingForm(s, start, end)
  {
    if start == -1 then [] else if end > start then s[start..end] else s[start..] + s[..end]
  }

  predicate RingForm(s: seq<byte>, start: int, end: int) {
    (start == -1 && end == -1) || (0 <= start < |s| && 0 <= end < |s|)
  }

  /** The ring's memory with data laid over it from at on, wrapping around. */
  function Laid(s: seq<byte>, at: nat, data: seq<byte>): (t: seq<byte>)
    requires at < |s| && |data| <= |s|
    ensures |t| == |s|
  {
    if at + |data| <= |s| then s[..at] + data + s[at + |data|..]
    else data[|s| - at..] + s[at + |data| - |s|..at] + data[..|s| - at]
  }

  lemma LaidAround(s: seq<byte>, t: seq<byte>, at: nat, data: seq<byte>)
    requires at < |s| && at + |data| > |s| >= |data|
    requires t == s[..at] + data[..|s| - at] + s[|s|..]
    ensures Laid(s, at, data) == t[..0] + data[|s| - at..] + t[at + |data| - |s|..]
  {
    var n := at + |data| - |s|;
    assert t[n..] == s[n..at] + data[..|s| - at];
  }

  /** Position n bytes further. */
  function Advanced(at: nat, n: nat, size: nat): (r: nat)
    requires at < size && n <= size
    ensures r < size && (r == at + n || r == at + n - size)
  {
    WrapOnce(at + n, size);
    (at + n) % size
  }

  lemma WrapOnce(x: nat, size: nat)
    requires 0 < size && x < 2 * size
    ensures x % size == if x < size then x else x - size
  {
    if x >= size {
      assert x == 1 * size + (x - size);
      assert x / size == 1;
    } else {
      assert x / size == 0;
    }
  }

  /** Laying data behind the ring's end appends it. */
  lemma RingAppended(s: seq<byte>, start: int, end: int, data: seq<byte>)
    requires RingForm(s, start, end) && start != -1 && 0 < |data|
    requires |Ring(s, start, end)| + |data| <= |s|
    ensures Ring(Laid(s, end, data), start, Advanced(end, |data|, |s|)) == Ring(s, start, end) + data
  {
    var n := |data|;
    if end > start {
      if end + n < |s| {
        assert Laid(s, end, data)[start..end + n] == s[start..end] + data;
      } else {
        AppendedAround(s, start, end, data);
      }
    } else {
      AppendedBehind(s, start, end, data);
    }
    hide Laid;
  }

  lemma AppendedAround(s: seq<byte>, start: nat, end: nat, data: seq<byte>)
    requires start < end < |s| <= end + |data| <= |s| + start
    ensures Laid(s, end, data)[start..] + Laid(s, end, data)[..end + |data| - |s|] == s[start..end] + data
  {
    var t := Laid(s, end, data);
    var part := |s| - end;
    assert t[start..] == s[start..end] + data[..part];
    assert t[..end + |data| - |s|] == data[part..];
    assert data == data[..part] + data[part..];
  }

  lemma AppendedBehind(s: seq<byte>, start: nat, end: nat, data: seq<byte>)
    requires end + |data| <= start < |s|
    ensures Laid(s, end, data)[start..] + Laid(s, end, data)[..end + |data|] == s[start..] + s[..end] + data
  {
    var t := Laid(s, end, data);
    assert t[start..] == s[start..] && t[..end + |data|] == s[..end] + data;
  }

  /** The first data of an empty ring. */
  lemma RingStarted(s: seq<byte>, data: seq<byte>)
    ensures 0 < |data| <= |s| ==> Ring(Laid(s, 0, data), 0, Advanced(0, |data|, |s|)) == data
  {
  }

  /** n bytes from a position on, wrapping around. */
  function Taken(s: seq<byte>, at: nat, n: nat): seq<byte>
    requires at < |s| && n <= |s|
  {
    if at + n <= |s| then s[at..at + n] else s[at..] + s[..at + n - |s|]
  }

  /** What is read from the start is the oldest, and the rest stays. */
  lemma RingTaken(s: seq<byte>, start: int, end: int, n: nat)
    requires RingForm(s, start, end) && start != -1 && 0 < n <= |Ring(s, start, end)|
    ensures Taken(s, start, n) == Ring(s, start, end)[..n]
    ensures Advanced(start, n, |s|) == end <==> n == |Ring(s, start, end)|
    ensures Advanced(start, n, |s|) != end ==> Ring(s, Advanced(start, n, |s|), end) == Ring(s, start, end)[n..]
  {
  }

  /** What both threads see of the buffer. */
  datatype Shared = Shared(contents: seq<byte>, wait: bool, semaphore: nat)

  /** Releases the semaphore for a thread that waits. */
  function Released(s: Shared, contents: seq<byte>): Shared {
    Shared(contents, false, if s.wait then s.semaphore + 1 else s.semaphore)
  }

  /** The locked section of write: all the data, or nothing. */
  function WriteSection(s: Shared, size: nat, data: seq<byte>): (Shared, bool) {
    if |s.contents| + |data| <= size then (Released(s, s.contents + data), true) else (s, false)
  }

  /** The locked section of read: the n oldest bytes, or nothing. */
  function ReadSection(s: Shared, n: nat): (Shared, bool, seq<byte>) {
    if n <= |s.contents| then (Released(s, s.contents[n..]), true, s.contents[..n]) else (s, false, [])
  }

  class MediaPlayBuffer {
    const buffer: array<byte>
    var wait: bool
    var start: int
    var end: int
    var semaphore: nat

    ghost predicate Valid()
      reads this, buffer
    {
      RingForm(buffer[..], start, end)
    }

    ghost function View(): Shared
      requires Valid()
      reads this, buffer
    {
      Shared(Ring(buffer[..], start, end), wait, semaphore)
    }

    constructor (size: nat)
      ensures Valid() && View() == Shared([], false, 0) && buffer.Length == size
    {
      buffer := new byte[size];
      wait, start, end, semaphore := false, -1, -1, 0;
    }

    /** IBuffer's write. */
    method Store(at: nat, data: seq<byte>)
      requires at + |data| <= buffer.Length
      modifies buffer
      ensures buffer[..] == old(buffer[..at]) + data + old(buffer[at + |data|..])
    {
      forall i | 0 <= i < |data| {
        buffer[at + i] := data[i];
      }
    }

    /** Stores data from a position on, around the end of the memory. */
    method Lay(at: nat, data: seq<byte>)
      requires at < buffer.Length && |data| <= buffer.Length
      modifies buffer
      ensures buffer[..] == Laid(old(buffer[..]), at, data)
    {
      if at + |data| <= buffer.Length {
        Store(at, data);
      } else {
        var part := buffer.Length - at;
        ghost var was := buffer[..];
        Store(at, data[..part]);
        LaidAround(was, buffer[..], at, data);
        Store(0, data[part..]);
      }
    }

    /** The locked section of write, for data of an acceptable size: either all
        of it is appended or nothing happens. */
    method TryWrite(data: seq<byte>) returns (done: bool)
      requires Valid() && 1 <= |data| <= buffer.Length
      modifies this, buffer
      ensures Valid() && (View(), done) == WriteSection(old(View()), buffer.Length, data)
    {
      var size := buffer.Length;
      ghost var was, start0 := buffer[..], start;
      var free := 0;
      if start == -1 {
        free := size;
        start, end := 0, 0;
      } else if end > start {
        free := size - end + start;
      } else {
        free := start - end;
      }
      done := free >= |data|;
      if !done { return; }
      if start0 == -1 {
        RingStarted(was, data);
        assert [] + data == data;
      } else {
        RingAppended(was, start, end, data);
      }
      hide Laid;
      Lay(end, data);
      end := Advanced(end, |data|, size);
      if wait {
        semaphore := semaphore + 1;
        wait := false;
      }
    }

    /** Copies n bytes out from a place on, in two parts around the end. */
    method Copy(at: nat, n: nat) returns (data: seq<byte>)
      requires at < buffer.Length && n <= buffer.Length
      ensures data == Taken(buffer[..], at, n)
    {
      if at + n <= buffer.Length {
        data := buffer[at..at + n];
      } else {
        data := buffer[at..];
        data := data + buffer[..n - (buffer.Length - at)];
      }
    }

    /** The locked section of read: either the n oldest bytes or nothing. */
    method TryRead(n: nat) returns (done: bool, data: seq<byte>)
      requires Valid() && 1 <= n <= buffer.Length
      modifies this
      ensures Valid() && (View(), done, data) == ReadSection(old(View()), n)
    {
      var size := buffer.Length;
      var valid := 0;
      data := [];
      if end > start {
        valid := end - start;
      } else if start != -1 {
        valid := size - start + end;
      }
      done := valid >= n;
      if !done { return; }
      RingTaken(buffer[..], start, end, n);
      assert Ring(buffer[..], -1, -1) == [];
      hide Ring;
      data := Copy(start, n);
      start := Advanced(start, n, size);
      if start == end { start, end := -1, -1; }
      if wait {
        semaphore := semaphore + 1;
        wait := false;
      }
    }

    method Clear()
      requires Valid()
      modifies this
      ensures Valid() && View() == Released(old(View()), [])
    {
      start, end := -1, -1;
      if wait {
        semaphore := semaphore + 1;
        wait := false;
      }
    }
  }

  // Both threads. A thread that fails leaves the locked section, sets the wait
  // flag, sleeps on the semaphore and tries again; it may also wake for nothing.

  datatype Stage = Trying | Failed | Asleep

  /** Chunks still to write or sizes still to read, and where the thread is. */
  datatype Writer = Writer(todo: seq<seq<byte>>, stage: Stage)
  datatype Reader = Reader(todo: seq<nat>, stage: Stage)

  datatype State = State(shared: Shared, writer: Writer, reader: Reader, wrote: seq<seq<byte>>, got: seq<seq<byte>>)

  datatype Event =
    | WriterLocks | WriterFlags | WriterWakes(spurious: bool)
    | ReaderLocks | ReaderFlags | ReaderWakes(spurious: bool)

  predicate Enabled(s: State, e: Event) {
    match e
    case WriterLocks => s.writer.todo != [] && s.writer.stage == Trying
    case WriterFlags => s.writer.stage == Failed
    case WriterWakes(spurious) => s.writer.stage == Asleep && (spurious || s.shared.semaphore > 0)
    case ReaderLocks => s.reader.todo != [] && s.reader.stage == Trying
    case ReaderFlags => s.reader.stage == Failed
    case ReaderWakes(spurious) => s.reader.stage == Asleep && (spurious || s.shared.semaphore > 0)
  }

  /** Sizes that write and read accept; they return at once on others. */
  predicate Acceptable(n: nat, size: nat) {
    1 <= n <= size
  }

  function Woken(s: Shared, spurious: bool): Shared
    requires spurious || s.semaphore > 0
  {
    if spurious then s else s.(semaphore := s.semaphore - 1)
  }

  function Next(s: State, e: Event, size: nat): State
    requires Enabled(s, e)
  {
    match e
    case WriterLocks =>
      var data, rest := s.writer.todo[0], Writer(s.writer.todo[1..], Trying);
      if !Acceptable(|data|, size) then s.(writer := rest)
      else
        var (shared, done) := WriteSection(s.shared, size, data);
        if done then s.(shared := shared, writer := rest, wrote := s.wrote + [data])
        else s.(writer := s.writer.(stage := Failed))
    case WriterFlags => s.(shared := s.shared.(wait := true), writer := s.writer.(stage := Asleep))
    case WriterWakes(spurious) => s.(shared := Woken(s.shared, spurious), writer := s.writer.(stage := Trying))
    case ReaderLocks =>
      var n, rest := s.reader.todo[0], Reader(s.reader.todo[1..], Trying);
      if !Acceptable(n, size) then s.(reader := rest)
      else
        var (shared, done, data) := ReadSection(s.shared, n);
        if done then s.(shared := shared, reader := rest, got := s.got + [data])
        else s.(reader := s.reader.(stage := Failed))
    case ReaderFlags => s.(shared := s.shared.(wait := true), reader := s.reader.(stage := Asleep))
    case ReaderWakes(spurious) => s.(shared := Woken(s.shared, spurious), reader := s.reader.(stage := Trying))
  }

  predicate Runs(s: State, es: seq<Event>, size: nat)
    decreases |es|
  {
    es == [] || (Enabled(s, es[0]) && Runs(Next(s, es[0], size), es[1..], size))
  }

  function After(s: State, es: seq<Event>, size: nat): State
    requires Runs(s, es, size)
    decreases |es|
  {
    if es == [] then s else After(Next(s, es[0], size), es[1..], size)
  }

  function Start(chunks: seq<seq<byte>>, sizes: seq<nat>): State {
    State(Shared([], false, 0), Writer(chunks, Trying), Reader(sizes, Trying), [], [])
  }

  function Flat(s: seq<seq<byte>>): seq<byte> {
    if s == [] then [] else s[0] + Flat(s[1..])
  }

  function Lengths(s: seq<seq<byte>>): seq<nat> {
    seq(|s|, i requires 0 <= i < |s| => |s[i]|)
  }

  function AcceptedChunks(chunks: seq<seq<byte>>, size: nat): seq<seq<byte>> {
    if chunks == [] then []
    else (if Acceptable(|chunks[0]|, size) then [chunks[0]] else []) + AcceptedChunks(chunks[1..], size)
  }

  function AcceptedSizes(sizes: seq<nat>, size: nat): seq<nat> {
    if sizes == [] then []
    else (if Acceptable(sizes[0], size) then [sizes[0]] else []) + AcceptedSizes(sizes[1..], size)
  }

  /** First in, first out: what was read, then what is buffered, is what was
      written; chunks are written and pieces read in the order asked for. */
  ghost predicate Fifo(s: State, chunks: seq<seq<byte>>, sizes: seq<nat>, size: nat) {
    && Flat(s.got) + s.shared.contents == Flat(s.wrote)
    && |s.shared.contents| <= size
    && AcceptedChunks(chunks, size) == s.wrote + AcceptedChunks(s.writer.todo, size)
    && AcceptedSizes(sizes, size) == Lengths(s.got) + AcceptedSizes(s.reader.todo, size)
  }

  lemma {:induction false} FlatAppend(s: seq<seq<byte>>, x: seq<byte>)
    ensures Flat(s + [x]) == Flat(s) + x
  {
    if s == [] {
      assert s + [x] == [x];
    } else {
      assert (s + [x])[1..] == s[1..] + [x];
      FlatAppend(s[1..], x);
    }
  }

  lemma WriteKeepsFifo(s: State, chunks: seq<seq<byte>>, sizes: seq<nat>, size: nat)
    requires Fifo(s, chunks, sizes, size) && Enabled(s, WriterLocks)
    ensures Fifo(Next(s, WriterLocks, size), chunks, sizes, size)
  {
    var data := s.writer.todo[0];
    FlatAppend(s.wrote, data);
    Assoc(Flat(s.got), s.shared.contents, data);
    var rest := AcceptedChunks(s.writer.todo[1..], size);
    if Acceptable(|data|, size) {
      assert AcceptedChunks(s.writer.todo, size) == [data] + rest;
      Assoc(s.wrote, [data], rest);
    } else {
      assert AcceptedChunks(s.writer.todo, size) == [] + rest == rest;
    }
    hide Flat, AcceptedChunks, AcceptedSizes, Lengths;
  }

  lemma ReadKeepsFifo(s: State, chunks: seq<seq<byte>>, sizes: seq<nat>, size: nat)
    requires Fifo(s, chunks, sizes, size) && Enabled(s, ReaderLocks)
    ensures Fifo(Next(s, ReaderLocks, size), chunks, sizes, size)
  {
    var n := s.reader.todo[0];
    assert AcceptedSizes(s.reader.todo, size)
        == (if Acceptable(n, size) then [n] else []) + AcceptedSizes(s.reader.todo[1..], size);
    if Acceptable(n, size) && n <= |s.shared.contents| {
      var data := s.shared.contents[..n];
      FlatAppend(s.got, data);
      assert Lengths(s.got + [data]) == Lengths(s.got) + [n];
    }
    hide Flat, AcceptedChunks, AcceptedSizes, Lengths;
  }

  lemma StepKeepsFifo(s: State, e: Event, chunks: seq<seq<byte>>, sizes: seq<nat>, size: nat)
    requires Fifo(s, chunks, sizes, size) && Enabled(s, e)
    ensures Fifo(Next(s, e, size), chunks, sizes, size)
  {
    if e == WriterLocks { WriteKeepsFifo(s, chunks, sizes, size); }
    else if e == ReaderLocks { ReadKeepsFifo(s, chunks, sizes, size); }
    hide Flat, AcceptedChunks, AcceptedSizes, Lengths;
  }

  lemma {:induction false} RunKeepsFifo(s: State, es: seq<Event>, chunks: seq<seq<byte>>, sizes: seq<nat>, size: nat)
    requires Fifo(s, chunks, sizes, size) && Runs(s, es, size)
    ensures Fifo(After(s, es, size), chunks, sizes, size)
    decreases |es|
  {
    hide Fifo;
    if es != [] {
      StepKeepsFifo(s, es[0], chunks, sizes, size);
      RunKeepsFifo(Next(s, es[0], size), es[1..], chunks, sizes, size);
    }
  }

  /** The buffer is first in, first out in every interleaving, whatever wakes
      the threads; when all was written and read, all was read as written. */
  lemma FifoUnderInterleaving(chunks: seq<seq<byte>>, sizes: seq<nat>, es: seq<Event>, size: nat)
    requires Runs(Start(chunks, sizes), es, size)
    ensures var s := After(Start(chunks, sizes), es, size);
            && Fifo(s, chunks, sizes, size)
            && (s.writer.todo == [] && s.shared.contents == [] ==> Flat(s.got) == Flat(AcceptedChunks(chunks, size)))
  {
    assert Fifo(Start(chunks, sizes), chunks, sizes, size);
    RunKeepsFifo(Start(chunks, sizes), es, chunks, sizes, size);
    hide Flat, Runs, After;
    var s := After(Start(chunks, sizes), es, size);
    assert s.writer.todo == [] ==> s.wrote == s.wrote + AcceptedChunks([], size);
  }

  // Waking up. The wait flag is set outside the lock, and both threads share one
  // semaphore; two rules make that enough, and each is needed.

  predicate WriterBlocked(s: State, size: nat) {
    s.writer.todo != [] && Acceptable(|s.writer.todo[0]|, size) && |s.shared.contents| + |s.writer.todo[0]| > size
  }

  predicate ReaderBlocked(s: State, size: nat) {
    s.reader.todo != [] && Acceptable(s.reader.todo[0], size) && s.reader.todo[0] > |s.shared.contents|
  }

  /** No late flag: a thread whose section failed sets the flag before anything
      else happens. */
  predicate PromptStep(s: State, e: Event) {
    && (s.writer.stage == Failed ==> e == WriterFlags)
    && (s.reader.stage == Failed ==> e == ReaderFlags)
  }

  predicate Prompt(s: State, es: seq<Event>, size: nat)
    requires Runs(s, es, size)
    decreases |es|
  {
    es != [] ==> PromptStep(s, es[0]) && Prompt(Next(s, es[0], size), es[1..], size)
  }

  /** Whether the writer is the one that has slept longer, after a step. */
  function WriterFirst(s: State, e: Event, first: bool): bool {
    if e == WriterFlags then s.reader.stage != Asleep
    else if e == ReaderFlags then s.writer.stage == Asleep
    else first
  }

  /** No stolen token: while both threads sleep, a token goes to the one that
      has slept longer. */
  predicate InTurnStep(s: State, e: Event, first: bool) {
    && (e == WriterWakes(false) && s.reader.stage == Asleep ==> first)
    && (e == ReaderWakes(false) && s.writer.stage == Asleep ==> !first)
  }

  predicate InTurn(s: State, es: seq<Event>, size: nat, first: bool)
    requires Runs(s, es, size)
    decreases |es|
  {
    es != [] ==>
      InTurnStep(s, es[0], first) && InTurn(Next(s, es[0], size), es[1..], size, WriterFirst(s, es[0], first))
  }

  /** A sleeping thread that could go on has a token to wake it; while one
      sleeps, the next success of the other leaves a token; while both sleep,
      the one that fell asleep later cannot go on. */
  ghost predicate Awakened(s: State, size: nat, first: bool) {
    && (s.writer.stage == Failed ==> WriterBlocked(s, size) && s.reader.stage != Failed)
    && (s.reader.stage == Failed ==> ReaderBlocked(s, size))
    && (s.writer.stage == Asleep ==> WriterBlocked(s, size) || s.shared.semaphore > 0)
    && (s.reader.stage == Asleep ==> ReaderBlocked(s, size) || s.shared.semaphore > 0)
    && (s.writer.stage == Asleep || s.reader.stage == Asleep ==> s.shared.wait || s.shared.semaphore > 0)
    && (s.writer.stage == Asleep && s.reader.stage == Asleep ==>
          s.shared.wait && (if first then ReaderBlocked(s, size) else WriterBlocked(s, size)))
  }

  lemma StepAwakens(s: State, e: Event, size: nat, first: bool)
    requires Awakened(s, size, first) && Enabled(s, e) && PromptStep(s, e) && InTurnStep(s, e, first)
    ensures Awakened(Next(s, e, size), size, WriterFirst(s, e, first))
  {
  }

  lemma {:induction false} RunAwakens(s: State, es: seq<Event>, size: nat, first: bool) returns (last: bool)
    requires Awakened(s, size, first) && Runs(s, es, size) && Prompt(s, es, size) && InTurn(s, es, size, first)
    ensures Awakened(After(s, es, size), size, last)
    decreases |es|
  {
    hide Awakened, PromptStep, InTurnStep, WriterFirst;
    last := first;
    if es != [] {
      StepAwakens(s, es[0], size, first);
      last := RunAwakens(Next(s, es[0], size), es[1..], size, WriterFirst(s, es[0], first));
    }
  }

  /** In every run without late flags and stolen tokens, a thread that sleeps
      with no token to wake it could not go on anyway; so two threads never
      both sleep for good unless the chunk and the piece asked for are together
      longer than the buffer and one byte. */
  lemma NoLostWakeUp(chunks: seq<seq<byte>>, sizes: seq<nat>, es: seq<Event>, size: nat)
    requires Runs(Start(chunks, sizes), es, size)
    requires Prompt(Start(chunks, sizes), es, size) && InTurn(Start(chunks, sizes), es, size, true)
    ensures var s := After(Start(chunks, sizes), es, size);
      s.shared.semaphore == 0 ==>
        && (s.writer.stage == Asleep ==> WriterBlocked(s, size))
        && (s.reader.stage == Asleep ==> ReaderBlocked(s, size))
        && (s.writer.stage == Asleep && s.reader.stage == Asleep ==>
              |s.writer.todo[0]| + s.reader.todo[0] > size + 1)
  {
    var _ := RunAwakens(Start(chunks, sizes), es, size, true);
  }

  /** Both threads sleep and no token is there, although the writer could go on. */
  predicate Stuck(s: State, size: nat) {
    && s.writer.stage == Asleep && s.reader.stage == Asleep && s.shared.semaphore == 0
    && s.writer.todo != [] && !WriterBlocked(s, size)
  }

  /** One step while the writer counts as the one that slept longer. */
  predicate Step(s: State, e: Event, t: State, size: nat, prompt: bool, inTurn: bool) {
    && Enabled(s, e) && Next(s, e, size) == t
    && PromptStep(s, e) == prompt && InTurnStep(s, e, true) == inTurn && WriterFirst(s, e, true)
  }

  /** Steps from s to t by es, prompt or not, in turn or not. */
  predicate Leads(s: State, es: seq<Event>, t: State, size: nat, prompt: bool, inTurn: bool) {
    Runs(s, es, size) && After(s, es, size) == t && Prompt(s, es, size) == prompt && InTurn(s, es, size, true) == inTurn
  }

  lemma OneMore(s: State, e: Event, m: State, es: seq<Event>, t: State, size: nat,
                p: bool, q: bool, prompt: bool, inTurn: bool)
    requires Step(s, e, m, size, p, q) && Leads(m, es, t, size, prompt, inTurn)
    ensures Leads(s, [e] + es, t, size, p && prompt, q && inTurn)
  {
    assert ([e] + es)[1..] == es;
  }

  lemma NoMore(s: State, size: nat)
    ensures Leads(s, [], s, size, true, true)
  {
  }

  /** Tokens are taken in turn, but the writer's flag comes late: after the
      reader's success, which therefore releases nothing. */
  lemma LateFlagSticks()
    ensures var es := [WriterLocks, WriterLocks, ReaderLocks, ReaderLocks, WriterFlags, ReaderFlags];
            var s := Start([[1], [2]], [1, 1]);
            && Runs(s, es, 1) && Stuck(After(s, es, 1), 1)
            && InTurn(s, es, 1, true) && !Prompt(s, es, 1)
  {
    var s0, s1, s2, s3, s4, s5, s6 := LateFlagSteps();
    hide Step, Leads, Runs, After, Prompt, InTurn, Stuck;
    NoMore(s6, 1);
    OneMore(s5, ReaderFlags, s6, [], s6, 1, true, true, true, true);
    var e5 := [ReaderFlags];
    assert [ReaderFlags] + [] == e5;
    OneMore(s4, WriterFlags, s5, e5, s6, 1, false, true, true, true);
    var e4 := [WriterFlags, ReaderFlags];
    assert [WriterFlags] + e5 == e4;
    OneMore(s3, ReaderLocks, s4, e4, s6, 1, false, true, false, true);
    var e3 := [ReaderLocks, WriterFlags, ReaderFlags];
    assert [ReaderLocks] + e4 == e3;
    OneMore(s2, ReaderLocks, s3, e3, s6, 1, false, true, false, true);
    var e2 := [ReaderLocks, ReaderLocks, WriterFlags, ReaderFlags];
    assert [ReaderLocks] + e3 == e2;
    OneMore(s1, WriterLocks, s2, e2, s6, 1, true, true, false, true);
    var e1 := [WriterLocks, ReaderLocks, ReaderLocks, WriterFlags, ReaderFlags];
    assert [WriterLocks] + e2 == e1;
    OneMore(s0, WriterLocks, s1, e1, s6, 1, true, true, false, true);
    var e0 := [WriterLocks, WriterLocks, ReaderLocks, ReaderLocks, WriterFlags, ReaderFlags];
    assert [WriterLocks] + e1 == e0;
    Unfold(s0, e0, s6, 1, false, true);
  }

  lemma Unfold(s: State, es: seq<Event>, t: State, size: nat, prompt: bool, inTurn: bool)
    requires Leads(s, es, t, size, prompt, inTurn)
    ensures Runs(s, es, size) && After(s, es, size) == t
    ensures Prompt(s, es, size) == prompt && InTurn(s, es, size, true) == inTurn
  {
  }

  lemma LateFlagSteps() returns (s0: State, s1: State, s2: State, s3: State, s4: State, s5: State, s6: State)
    ensures s0 == Start([[1], [2]], [1, 1]) && Stuck(s6, 1)
    ensures Step(s0, WriterLocks, s1, 1, true, true) && Step(s1, WriterLocks, s2, 1, true, true)
    ensures Step(s2, ReaderLocks, s3, 1, false, true) && Step(s3, ReaderLocks, s4, 1, false, true)
    ensures Step(s4, WriterFlags, s5, 1, false, true) && Step(s5, ReaderFlags, s6, 1, true, true)
  {
    s0 := Start([[1], [2]], [1, 1]);
    s1 := State(Shared([1], false, 0), Writer([[2]], Trying), Reader([1, 1], Trying), [[1]], []);
    s2 := s1.(writer := Writer([[2]], Failed));
    s3 := State(Shared([], false, 0), Writer([[2]], Failed), Reader([1], Trying), [[1]], [[1]]);
    s4 := s3.(reader := Reader([1], Failed));
    s5 := s4.(shared := Shared([], true, 0), writer := Writer([[2]], Asleep));
    s6 := s5.(reader := Reader([1], Asleep));
    assert Next(s0, WriterLocks, 1) == s1 by { assert [[1], [2]][1..] == [[2]]; }
    assert Next(s2, ReaderLocks, 1) == s3 by { ReadOne(1); }
  }

  /** Reading one byte out of one. */
  lemma ReadOne(n: nat)
    ensures ReadSection(Shared([1], false, 0), 1) == (Shared([], false, 0), true, [1])
    ensures ReadSection(Shared([1], true, 0), 1) == (Shared([], false, 1), true, [1])
    ensures [1 as nat, n][1..] == [n]
  {
    var one: seq<byte> := [1];
    assert one[..1] == one && one[1..] == [];
  }

  /** Every flag is prompt, but the reader, which fell asleep later, takes the
      token that it released for the writer. */
  lemma StolenTokenSticks()
    ensures var es := [WriterLocks, WriterLocks]
                      + [WriterFlags, ReaderLocks, ReaderLocks, ReaderFlags,
                         ReaderWakes(false), ReaderLocks, ReaderFlags];
            var s := Start([[1], [2, 2]], [1, 2]);
            && Runs(s, es, 2) && Stuck(After(s, es, 2), 2)
            && Prompt(s, es, 2) && !InTurn(s, es, 2, true)
  {
    var s0, s1, s2, s3, s4 := StolenTokenGiven();
    var s5, s6, s7, s8, s9 := StolenTokenTaken(s4);
    StolenEnd(s4, s5, s6, s7, s8, s9);
    StolenMiddle(s2, s3, s4, s9);
    hide Step, Leads, Runs, After, Prompt, InTurn, Stuck;
    var e2 := [WriterFlags, ReaderLocks, ReaderLocks, ReaderFlags, ReaderWakes(false), ReaderLocks, ReaderFlags];
    OneMore(s1, WriterLocks, s2, e2, s9, 2, true, true, true, false);
    OneMore(s0, WriterLocks, s1, [WriterLocks] + e2, s9, 2, true, true, true, false);
    assert [WriterLocks] + ([WriterLocks] + e2) == [WriterLocks, WriterLocks] + e2;
    Unfold(s0, [WriterLocks, WriterLocks] + e2, s9, 2, true, false);
  }

  lemma StolenMiddle(s2: State, s3: State, s4: State, s9: State)
    requires Step(s2, WriterFlags, s3, 2, true, true) && Step(s3, ReaderLocks, s4, 2, true, true)
    requires Leads(s4, [ReaderLocks, ReaderFlags, ReaderWakes(false), ReaderLocks, ReaderFlags], s9, 2, true, false)
    ensures Leads(s2, [WriterFlags, ReaderLocks, ReaderLocks, ReaderFlags,
                       ReaderWakes(false), ReaderLocks, ReaderFlags],
                  s9, 2, true, false)
  {
    hide Step, Leads;
    var e4 := [ReaderLocks, ReaderFlags, ReaderWakes(false), ReaderLocks, ReaderFlags];
    OneMore(s3, ReaderLocks, s4, e4, s9, 2, true, true, true, false);
    var e3 := [ReaderLocks, ReaderLocks, ReaderFlags, ReaderWakes(false), ReaderLocks, ReaderFlags];
    assert [ReaderLocks] + e4 == e3;
    OneMore(s2, WriterFlags, s3, e3, s9, 2, true, true, true, false);
    assert [WriterFlags] + e3
        == [WriterFlags, ReaderLocks, ReaderLocks, ReaderFlags, ReaderWakes(false), ReaderLocks, ReaderFlags];
  }

  lemma StolenEnd(s4: State, s5: State, s6: State, s7: State, s8: State, s9: State)
    requires Step(s4, ReaderLocks, s5, 2, true, true) && Step(s5, ReaderFlags, s6, 2, true, true)
    requires Step(s6, ReaderWakes(false), s7, 2, true, false)
    requires Step(s7, ReaderLocks, s8, 2, true, true) && Step(s8, ReaderFlags, s9, 2, true, true)
    ensures Leads(s4, [ReaderLocks, ReaderFlags, ReaderWakes(false), ReaderLocks, ReaderFlags], s9, 2, true, false)
  {
    hide Step, Leads;
    NoMore(s9, 2);
    OneMore(s8, ReaderFlags, s9, [], s9, 2, true, true, true, true);
    var e8 := [ReaderFlags];
    assert [ReaderFlags] + [] == e8;
    OneMore(s7, ReaderLocks, s8, e8, s9, 2, true, true, true, true);
    var e7 := [ReaderLocks, ReaderFlags];
    assert [ReaderLocks] + e8 == e7;
    OneMore(s6, ReaderWakes(false), s7, e7, s9, 2, true, false, true, true);
    var e6 := [ReaderWakes(false), ReaderLocks, ReaderFlags];
    assert [ReaderWakes(false)] + e7 == e6;
    OneMore(s5, ReaderFlags, s6, e6, s9, 2, true, true, true, false);
    var e5 := [ReaderFlags, ReaderWakes(false), ReaderLocks, ReaderFlags];
    assert [ReaderFlags] + e6 == e5;
    OneMore(s4, ReaderLocks, s5, e5, s9, 2, true, true, true, false);
    assert [ReaderLocks] + e5 == [ReaderLocks, ReaderFlags, ReaderWakes(false), ReaderLocks, ReaderFlags];
  }

  lemma StolenTokenGiven() returns (s0: State, s1: State, s2: State, s3: State, s4: State)
    ensures s0 == Start([[1], [2, 2]], [1, 2])
    ensures s4 == State(Shared([], false, 1), Writer([[2, 2]], Asleep), Reader([2], Trying), [[1]], [[1]])
    ensures Step(s0, WriterLocks, s1, 2, true, true) && Step(s1, WriterLocks, s2, 2, true, true)
    ensures Step(s2, WriterFlags, s3, 2, true, true) && Step(s3, ReaderLocks, s4, 2, true, true)
  {
    s0 := Start([[1], [2, 2]], [1, 2]);
    s1 := State(Shared([1], false, 0), Writer([[2, 2]], Trying), Reader([1, 2], Trying), [[1]], []);
    s2 := s1.(writer := Writer([[2, 2]], Failed));
    s3 := s2.(shared := Shared([1], true, 0), writer := Writer([[2, 2]], Asleep));
    s4 := State(Shared([], false, 1), Writer([[2, 2]], Asleep), Reader([2], Trying), [[1]], [[1]]);
    assert Next(s0, WriterLocks, 2) == s1 by { assert [[1], [2, 2]][1..] == [[2, 2]]; }
    assert Next(s3, ReaderLocks, 2) == s4 by { ReadOne(2); }
  }

  lemma StolenTokenTaken(s4: State) returns (s5: State, s6: State, s7: State, s8: State, s9: State)
    requires s4 == State(Shared([], false, 1), Writer([[2, 2]], Asleep), Reader([2], Trying), [[1]], [[1]])
    ensures Step(s4, ReaderLocks, s5, 2, true, true) && Step(s5, ReaderFlags, s6, 2, true, true)
    ensures Step(s6, ReaderWakes(false), s7, 2, true, false)
    ensures Step(s7, ReaderLocks, s8, 2, true, true) && Step(s8, ReaderFlags, s9, 2, true, true) && Stuck(s9, 2)
  {
    s5 := s4.(reader := Reader([2], Failed));
    s6 := s5.(shared := Shared([], true, 1), reader := Reader([2], Asleep));
    s7 := s6.(shared := Shared([], true, 0), reader := Reader([2], Trying));
    s8 := s7.(reader := Reader([2], Failed));
    s9 := s8.(reader := Reader([2], Asleep));
  }
}
