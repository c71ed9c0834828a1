/**
 ServiceBrowser::popmsg (sb.cc): lines put together from chunks of at most 127
 bytes, at most one line for each call.
 */
module Framing {
  import opened Wrappers

  datatype State = ERROR | CLOSED | NOT_READY | INVALID | READY

  /** What read() gives: bytes, nothing for now, the end, or another error. */
  datatype ReadResult = Data(chunk: string) | Again | Eof | Failed

  const CHUNK: nat := 127
  const UNAVAILABLE: string := "{'signal':'service_browser_unavailable'};"

  predicate Possible(r: ReadResult) {
    r.Data? ==> 1 <= |r.chunk| <= CHUNK
  }

  /** read() fills all but one of 128 bytes, and zero bytes are the end of the stream. */
  lemma ChunksAre(chunk: string)
    ensures Possible(Data(chunk)) <==> 0 < |chunk| < 128
  {
  }

  /** find_first_of('\n'), or the length */
  function FindNewline(s: string): (pos: nat)
    ensures pos <= |s|
    ensures pos < |s| ==> s[pos] == '\n'
    ensures forall i :: 0 <= i < pos ==> s[i] != '\n'
  {
    if s == "" then 0
    else if s[0] == '\n' then 0
    else 1 + FindNewline(s[1..])
  }

  // ---------------------------------------------------------------------
  // Plain splitting of a whole stream

  predicate NewlineFree(s: string) {
    forall i :: 0 <= i < |s| ==> s[i] != '\n'
  }

  /** The complete lines of a stream. */
  function Lines(s: string): seq<string>
    decreases |s|
  {
    var pos := FindNewline(s);
    if pos == |s| then [] else [s[..pos]] + Lines(s[pos + 1..])
  }

  /** What is behind its last newline. */
  function Rest(s: string): string
    decreases |s|
  {
    var pos := FindNewline(s);
    if pos == |s| then s else Rest(s[pos + 1..])
  }

  /** The lines, each one followed by a newline. */
  function Join(lines: seq<string>): string {
    if lines == [] then "" else lines[0] + "\n" + Join(lines[1..])
  }

  lemma {:induction false} NewlineIsFirst(line: string, t: string)
    requires NewlineFree(line)
    ensures FindNewline(line + "\n" + t) == |line|
  {
    var s := line + "\n" + t;
    assert s[|line|] == '\n';
    assert forall i :: 0 <= i < |line| ==> s[i] == line[i];
  }

  lemma {:induction false} SplitOne(line: string, t: string)
    requires NewlineFree(line)
    ensures Lines(line + "\n" + t) == [line] + Lines(t) && Rest(line + "\n" + t) == Rest(t)
  {
    NewlineIsFirst(line, t);
    var s := line + "\n" + t;
    assert s[..|line|] == line && s[|line| + 1..] == t;
  }

  lemma {:induction false} SplitStep(line: string, u: string, ls: seq<string>, r: string)
    requires NewlineFree(line) && Lines(u) == ls && Rest(u) == r
    ensures Lines(line + "\n" + u) == [line] + ls && Rest(line + "\n" + u) == r
  {
    SplitOne(line, u);
  }

  lemma {:induction false} JoinFirst(lines: seq<string>, t: string)
    requires lines != []
    ensures Join(lines) + t == lines[0] + "\n" + (Join(lines[1..]) + t)
  {
  }

  lemma {:induction false} ConsFirst(lines: seq<string>, more: seq<string>)
    requires lines != []
    ensures [lines[0]] + (lines[1..] + more) == lines + more
  {
  }

  /** Splitting takes joined lines apart again, whatever follows them. */
  lemma {:induction false} SplitJoined(lines: seq<string>, t: string)
    requires forall i :: 0 <= i < |lines| ==> NewlineFree(lines[i])
    ensures Lines(Join(lines) + t) == lines + Lines(t)
    ensures Rest(Join(lines) + t) == Rest(t)
  {
    if lines == [] {
      assert Join(lines) + t == t;
      assert lines + Lines(t) == Lines(t);
    } else {
      SplitJoined(lines[1..], t);
      SplitStep(lines[0], Join(lines[1..]) + t, lines[1..] + Lines(t), Rest(t));
      JoinFirst(lines, t);
      ConsFirst(lines, Lines(t));
    }
  }

  lemma {:induction false} JoinAppend(lines: seq<string>, line: string)
    ensures Join(lines + [line]) == Join(lines) + line + "\n"
  {
    if lines == [] {
      assert [line][1..] == [];
    } else {
      assert (lines + [line])[1..] == lines[1..] + [line];
      JoinAppend(lines[1..], line);
    }
  }

  lemma {:induction false} RestIsNewlineFree(s: string)
    ensures NewlineFree(Rest(s))
    ensures NewlineFree(s) <==> Lines(s) == []
    decreases |s|
  {
    var pos := FindNewline(s);
    if pos == |s| {
      assert s[..pos] == s;
    } else {
      RestIsNewlineFree(s[pos + 1..]);
    }
  }

  // ---------------------------------------------------------------------
  // The object

  datatype Sb = Sb(st: State, buffer: string)

  /** One call: the new state, the returned string, and the line it stands for, if any. */
  datatype Popped = Popped(sb: Sb, ret: string, line: Option<string>)

  function Receive(s: Sb, r: ReadResult): Sb {
    match r
    case Data(chunk) => s.(buffer := s.buffer + chunk)
    case Again => s
    case Eof => s.(st := CLOSED)
    case Failed => s.(st := CLOSED)
  }

  function Pop(s: Sb, r: ReadResult): Popped {
    if s.st != READY then Popped(s, UNAVAILABLE, None)
    else
      var s1 := Receive(s, r);
      if s1.st != READY then Popped(s1, "", None)
      else
        var pos := FindNewline(s1.buffer);
        if pos == |s1.buffer| then Popped(s1, "", None)
        else Popped(s1.(buffer := s1.buffer[pos + 1..]), s1.buffer[..pos], Some(s1.buffer[..pos]))
  }

  class ServiceBrowser {
    var st: State
    var buffer: string

    constructor ()
      ensures st == NOT_READY && buffer == ""
    {
      st := NOT_READY;
      buffer := "";
    }

    /** init, with the outcome of socketpair and fork, and of the two fcntl calls */
    method Init(spawned: bool, nonBlocking: bool) returns (ok: bool)
      modifies this
      ensures buffer == old(buffer)
      ensures ok <==> spawned && nonBlocking
      ensures st == if !spawned then ERROR else if nonBlocking then READY else NOT_READY
    {
      if !spawned {
        st := ERROR;
        return false;
      }
      if !nonBlocking {
        st := NOT_READY;
        return false;
      }
      st := READY;
      return true;
    }

    /** popmsg; `line` tells an empty line from no line, which the caller cannot */
    method PopMsg(r: ReadResult) returns (ret: string, ghost line: Option<string>)
      requires Possible(r)
      modifies this
      ensures Popped(Sb(st, buffer), ret, line) == Pop(old(Sb(st, buffer)), r)
    {
      line := None;
      if st != READY {
        return UNAVAILABLE, line;
      }
      match r {
        case Again =>
        case Data(chunk) => buffer := buffer + chunk;
        case Eof => st := CLOSED;
        case Failed => st := CLOSED;
      }
      if st != READY {
        return "", line;
      }
      var pos := FindNewline(buffer);
      if pos == |buffer| {
        return "", line;
      }
      ret := buffer[..pos];
      line := Some(ret);
      if pos + 1 < |buffer| {
        buffer := buffer[pos + 1..];
      } else {
        assert buffer[pos + 1..] == "";
        buffer := "";
      }
    }
  }

  // ---------------------------------------------------------------------
  // Histories of calls

  /** The state, the strings returned and the lines extracted after a history of calls. */
  datatype History = History(sb: Sb, rets: seq<string>, lines: seq<string>)

  function CallsFrom(h: History, input: seq<ReadResult>): History {
    if input == [] then h else After(CallsFrom(h, input[..|input| - 1]), input[|input| - 1])
  }

  /** On an object that was initialised with success. */
  function Calls(input: seq<ReadResult>): History {
    CallsFrom(History(Sb(READY, ""), [], []), input)
  }

  function Extracted(p: Popped): seq<string> {
    if p.line.Some? then [p.line.value] else []
  }

  /** All the bytes that read() gave. */
  function Bytes(input: seq<ReadResult>): string {
    if input == [] then ""
    else
      Bytes(input[..|input| - 1]) + Chunk(input[|input| - 1])
  }

  predicate AllNewlineFree(lines: seq<string>) {
    forall i :: 0 <= i < |lines| ==> NewlineFree(lines[i])
  }

  lemma {:induction false} ReadyHistory(input: seq<ReadResult>)
    requires input != [] && Calls(input).sb.st == READY
    ensures Calls(input[..|input| - 1]).sb.st == READY
    ensures !input[|input| - 1].Eof? && !input[|input| - 1].Failed?
  {
  }

  lemma {:induction false} Glue(j: string, b: string, pos: nat)
    requires pos < |b| && b[pos] == '\n'
    ensures j + b == j + b[..pos] + "\n" + b[pos + 1..]
  {
    assert b == b[..pos] + ("\n" + b[pos + 1..]);
  }

  lemma {:induction false} PopKeeps(s: Sb, r: ReadResult, lines: seq<string>)
    requires Pop(s, r).sb.st == READY && AllNewlineFree(lines)
    ensures var p := Pop(s, r);
            && Join(lines) + Receive(s, r).buffer == Join(lines + Extracted(p)) + p.sb.buffer
            && AllNewlineFree(lines + Extracted(p))
  {
    var b := Receive(s, r).buffer;
    var pos := FindNewline(b);
    if pos < |b| {
      JoinAppend(lines, b[..pos]);
      Glue(Join(lines), b, pos);
    } else {
      assert lines + [] == lines;
    }
  }

  /** What was read so far, on a history. */
  predicate Accounted(h: History, bytes: string) {
    bytes == Join(h.lines) + h.sb.buffer && AllNewlineFree(h.lines)
  }

  function Chunk(r: ReadResult): string {
    if r.Data? then r.chunk else ""
  }

  function After(h: History, r: ReadResult): History {
    var p := Pop(h.sb, r);
    History(p.sb, h.rets + [p.ret], h.lines + Extracted(p))
  }

  lemma {:induction false} AccountedStep(h: History, bytes: string, r: ReadResult)
    requires Accounted(h, bytes) && After(h, r).sb.st == READY
    ensures Accounted(After(h, r), bytes + Chunk(r))
  {
    PopKeeps(h.sb, r, h.lines);
    assert Join(h.lines) + h.sb.buffer + Chunk(r) == Join(h.lines) + Receive(h.sb, r).buffer by {
      assert h.sb.buffer + Chunk(r) == Receive(h.sb, r).buffer;
    }
  }

  /** While the socket is open, what was read is the extracted lines and then the buffer. */
  lemma {:induction false} NothingIsLost(input: seq<ReadResult>)
    requires Calls(input).sb.st == READY
    ensures Accounted(Calls(input), Bytes(input))
  {
    if input != [] {
      ReadyHistory(input);
      var front, r := input[..|input| - 1], input[|input| - 1];
      NothingIsLost(front);
      AccountedStep(Calls(front), Bytes(front), r);
    }
  }

  /** Calls agree with plain splitting of everything that was read. */
  lemma {:induction false} AgreesWithSplitting(input: seq<ReadResult>)
    requires Calls(input).sb.st == READY
    ensures var h := Calls(input);
            && Lines(Bytes(input)) == h.lines + Lines(h.sb.buffer)
            && Rest(Bytes(input)) == Rest(h.sb.buffer)
  {
    NothingIsLost(input);
    SplitJoined(Calls(input).lines, Calls(input).sb.buffer);
  }

  /** Splitting a prefix of a stream gives some of the first lines. */
  lemma {:induction false} LinesOfPrefix(s: string, t: string)
    ensures Lines(s) <= Lines(s + t)
    decreases |s|
  {
    var pos := FindNewline(s);
    if pos < |s| {
      var line, u := s[..pos], s[pos + 1..];
      assert s + t == line + "\n" + (u + t);
      SplitOne(line, u + t);
      LinesOfPrefix(u, t);
    }
  }

  function Agains(n: nat): seq<ReadResult> {
    seq(n, _ => Again)
  }

  lemma {:induction false} PopAgain(b: string)
    ensures var p, left := Pop(Sb(READY, b), Again), Lines(b);
            && p.sb.st == READY && Rest(p.sb.buffer) == Rest(b)
            && Extracted(p) == (if left == [] then [] else [left[0]])
            && Lines(p.sb.buffer) == (if left == [] then [] else left[1..])
  {
  }

  /** `h'` is `h` after up to `n` more lines. */
  predicate Drained(h: History, h': History, n: nat) {
    var left := Lines(h.sb.buffer);
    && h'.sb.st == READY
    && h'.lines == h.lines + Take(left, n)
    && Lines(h'.sb.buffer) == Drop(left, n)
    && Rest(h'.sb.buffer) == Rest(h.sb.buffer)
  }

  lemma DrainOne(h: History, h': History, n: nat)
    requires Drained(h, h', n)
    ensures Drained(h, After(h', Again), n + 1)
  {
    PopAgain(h'.sb.buffer);
    TakeOneMore(h.lines, Lines(h.sb.buffer), n);
  }

  function AfterAgains(h: History, n: nat): History {
    if n == 0 then h else After(AfterAgains(h, n - 1), Again)
  }

  lemma {:induction false} CallsAgains(input: seq<ReadResult>, n: nat)
    ensures Calls(input + Agains(n)) == AfterAgains(Calls(input), n)
  {
    if n == 0 {
      assert input + Agains(0) == input;
    } else {
      CallsAgains(input, n - 1);
      assert input + Agains(n) == (input + Agains(n - 1)) + [Again];
      CallsLast(input + Agains(n - 1), Again);
    }
  }

  lemma {:induction false} CallsLast(input: seq<ReadResult>, r: ReadResult)
    ensures Calls(input + [r]) == After(Calls(input), r)
  {
    assert (input + [r])[..|input|] == input;
  }

  lemma {:induction false} DrainsFrom(h: History, n: nat)
    requires h.sb.st == READY
    ensures Drained(h, AfterAgains(h, n), n)
  {
    if n > 0 {
      DrainsFrom(h, n - 1);
      DrainOne(h, AfterAgains(h, n - 1), n - 1);
    }
  }

  /**
   With nothing more to read, every call extracts one line as long as the buffer has a
   newline, and none afterwards.
   */
  lemma {:induction false} Drains(input: seq<ReadResult>, n: nat)
    requires Calls(input).sb.st == READY
    ensures Drained(Calls(input), Calls(input + Agains(n)), n)
  {
    CallsAgains(input, n);
    DrainsFrom(Calls(input), n);
  }

  function Take(s: seq<string>, n: nat): seq<string> {
    if n <= |s| then s[..n] else s
  }

  function Drop(s: seq<string>, n: nat): seq<string> {
    if n <= |s| then s[n..] else []
  }

  lemma {:induction false} TakeOneMore(h: seq<string>, s: seq<string>, n: nat)
    ensures var d := Drop(s, n);
            && h + Take(s, n + 1) == h + Take(s, n) + (if d == [] then [] else [d[0]])
            && Drop(s, n + 1) == (if d == [] then [] else d[1..])
  {
  }

  /**
   The round trip: newline-free messages, each one ended by a newline, come out one by one
   and in order, however the stream was cut into chunks, however many empty reads were in
   between and however much of it was read so far.
   */
  lemma {:induction false} RoundTrip(msgs: seq<string>, input: seq<ReadResult>)
    requires AllNewlineFree(msgs) && Bytes(input) <= Join(msgs)
    requires Calls(input).sb.st == READY
    ensures var h := Calls(input);
            && h.lines + Lines(h.sb.buffer) <= msgs
            && (Bytes(input) == Join(msgs) ==> msgs == h.lines + Lines(h.sb.buffer) && Rest(h.sb.buffer) == "")
  {
    var rest := Join(msgs)[|Bytes(input)|..];
    assert Join(msgs) == Bytes(input) + rest;
    AgreesWithSplitting(input);
    LinesOfPrefix(Bytes(input), rest);
    SplitJoined(msgs, "");
    assert Join(msgs) + "" == Join(msgs);
    assert Lines("") == [] && Rest("") == "";
  }

  /** After as many further calls as messages are missing, all of them are out and nothing is left. */
  lemma {:induction false} RoundTripEnds(msgs: seq<string>, input: seq<ReadResult>, n: nat)
    requires AllNewlineFree(msgs) && Bytes(input) == Join(msgs)
    requires Calls(input).sb.st == READY && n >= |msgs| - |Calls(input).lines|
    ensures Calls(input + Agains(n)).lines == msgs && Calls(input + Agains(n)).sb.buffer == ""
  {
    RoundTrip(msgs, input);
    Drains(input, n);
    var b := Calls(input + Agains(n)).sb.buffer;
    RestIsNewlineFree(b);
    assert Rest(b) == b;
  }

  // ---------------------------------------------------------------------
  // What the caller sees

  function NonEmpty(lines: seq<string>): seq<string> {
    if lines == [] then []
    else NonEmpty(lines[..|lines| - 1]) + if lines[|lines| - 1] == "" then [] else [lines[|lines| - 1]]
  }

  /** The strings that are not empty, in order. */
  lemma {:induction false} NonEmptyInTwo(a: seq<string>, b: seq<string>)
    ensures NonEmpty(a + b) == NonEmpty(a) + NonEmpty(b)
    ensures |b| == 1 ==> NonEmpty(b) == if b[0] == "" then [] else b
    decreases |b|
  {
    if b == [] {
      assert a + b == a;
    } else {
      var n := |b| - 1;
      assert (a + b)[..|a + b| - 1] == a + b[..n];
      NonEmptyInTwo(a, b[..n]);
    }
  }

  /** An empty line looks like no line: the strings that are not empty are the lines that are not. */
  lemma {:induction false} CallerSees(input: seq<ReadResult>)
    requires Calls(input).sb.st == READY
    ensures NonEmpty(Calls(input).rets) == NonEmpty(Calls(input).lines)
  {
    if input != [] {
      ReadyHistory(input);
      var front := input[..|input| - 1];
      CallerSees(front);
      var h := Calls(front);
      var p := Pop(h.sb, input[|input| - 1]);
      assert (h.rets + [p.ret])[..|h.rets|] == h.rets;
      if p.line.Some? {
        assert (h.lines + [p.line.value])[..|h.lines|] == h.lines;
      } else {
        assert h.lines + [] == h.lines;
      }
    }
  }

  /** No caller could tell: the same strings are returned for an empty line and for none. */
  lemma EmptyLineIsNoLine()
    ensures var line, none := Calls([Data("\n")]), Calls([Again]);
            line.rets == none.rets && line.lines == [""] && none.lines == []
  {
    assert [Data("\n")][..0] == [] && [Again][..0] == [];
    var p := Pop(Sb(READY, ""), Data("\n"));
    assert FindNewline("\n") == 0;
    assert "" + "\n" == "\n" && p.line == Some("");
    var q := Pop(Sb(READY, ""), Again);
    assert q.line == None && q.ret == "";
  }

  // ---------------------------------------------------------------------
  // After the peer has closed

  function Unavailable(n: nat): seq<string> {
    seq(n, _ => UNAVAILABLE)
  }

  /** An object that is not ready extracts nothing, whatever is in its buffer, and says so every time. */
  lemma {:induction false} NotReadyIsDeaf(h: History, input: seq<ReadResult>)
    requires h.sb.st != READY
    ensures CallsFrom(h, input) == History(h.sb, h.rets + Unavailable(|input|), h.lines)
    ensures forall i :: 0 <= i < |input| ==> Unavailable(|input|)[i] == "{'signal':'service_browser_unavailable'};"
  {
    if input == [] {
      assert h.rets + [] == h.rets;
    } else {
      var n := |input| - 1;
      NotReadyIsDeaf(h, input[..n]);
      assert h.rets + Unavailable(n) + [UNAVAILABLE] == h.rets + Unavailable(n + 1);
      assert h.lines + [] == h.lines;
    }
  }

  lemma {:induction false} CallsInTwo(h: History, input: seq<ReadResult>, more: seq<ReadResult>)
    ensures CallsFrom(h, input + more) == CallsFrom(CallsFrom(h, input), more)
  {
    if more == [] {
      assert input + more == input;
    } else {
      var all, n := input + more, |more| - 1;
      assert all[..|all| - 1] == input + more[..n];
      CallsInTwo(h, input, more[..n]);
    }
  }

  /** The call that sees the end of the stream, or an error, returns an empty string and extracts nothing. */
  lemma {:induction false} CloseIsSilent(input: seq<ReadResult>, end: ReadResult)
    requires Calls(input).sb.st == READY && (end.Eof? || end.Failed?)
    ensures var h, h' := Calls(input), Calls(input + [end]);
            h'.sb.st == CLOSED && h'.rets == h.rets + [""] && h'.lines == h.lines && h'.sb.buffer == h.sb.buffer
  {
    CallsLast(input, end);
    assert Calls(input).lines + [] == Calls(input).lines;
  }

  /**
   So a complete stream is delivered completely exactly when the buffer held no newline
   at the moment the peer closed.
   */
  lemma {:induction false} DeliveredExactlyWhen(msgs: seq<string>, input: seq<ReadResult>,
                                                end: ReadResult, more: seq<ReadResult>)
    requires AllNewlineFree(msgs) && Bytes(input) == Join(msgs) && Calls(input).sb.st == READY
    requires end.Eof? || end.Failed?
    ensures Calls(input + [end] + more).lines == msgs <==> NewlineFree(Calls(input).sb.buffer)
  {
    var h := Calls(input);
    var all := input + [end];
    assert all[..|all| - 1] == input;
    assert Calls(all).lines == h.lines + [] == h.lines && Calls(all).sb.st == CLOSED;
    CallsInTwo(History(Sb(READY, ""), [], []), all, more);
    NotReadyIsDeaf(Calls(all), more);
    AgreesWithSplitting(input);
    SplitJoined(msgs, "");
    assert Join(msgs) + "" == Join(msgs);
    assert Lines("") == [];
    assert msgs == h.lines + Lines(h.sb.buffer);
    RestIsNewlineFree(h.sb.buffer);
    if h.lines == msgs {
      assert |Lines(h.sb.buffer)| == 0;
    }
  }

  // ---------------------------------------------------------------------
  // The life of an object

  /**
   An object is made and initialised, and asked once for each result of a read: it answers
   as the histories say if init reported success, and otherwise says each time that the
   service browser is unavailable.
   */
  method Session(spawned: bool, nonBlocking: bool, input: seq<ReadResult>) returns (ok: bool, rets: seq<string>)
    requires forall i :: 0 <= i < |input| ==> Possible(input[i])
    ensures ok <==> spawned && nonBlocking
    ensures rets == if ok then Calls(input).rets else Unavailable(|input|)
  {
    var sb := new ServiceBrowser();
    ok := sb.Init(spawned, nonBlocking);
    ghost var start := History(Sb(sb.st, ""), [], []);
    rets := [];
    var i := 0;
    assert input[..0] == [];
    while i < |input|
      invariant 0 <= i <= |input|
      invariant var h := CallsFrom(start, input[..i]); h.sb == Sb(sb.st, sb.buffer) && h.rets == rets
    {
      var ret, line := sb.PopMsg(input[i]);
      rets := rets + [ret];
      assert input[..i + 1][..i] == input[..i];
      i := i + 1;
    }
    assert input[..i] == input;
    if !ok {
      NotReadyIsDeaf(start, input);
      assert [] + Unavailable(|input|) == Unavailable(|input|);
    }
  }
}
