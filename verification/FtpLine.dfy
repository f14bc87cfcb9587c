/** Reading one CRLF-terminated command line from a byte stream that arrives in arbitrary chunks. */
module FtpLine {
  import opened CString

  datatype Outcome = Line(received: nat) | InvalidArgument | ConnectionReset | Overflow | Failed(code: int)

  /** The receiving end of a connection: all the bytes the peer sends before it closes, and how many
      of them have been received. */
  class Socket {
    const stream: string
    var pos: nat
    var failures: nat

    ghost predicate Valid()
      reads this
    {
      pos <= |stream|
    }

    constructor (stream: string)
      ensures Valid() && this.stream == stream && pos == 0 && failures == 0
    {
      this.stream, pos, failures := stream, 0, 0;
    }

    /** Receives at least one byte if there is one and there is room, but maybe no more. */
    method Recv(buf: array<char>, offset: nat, room: nat) returns (n: int)
      requires Valid() && offset + room <= buf.Length
      modifies this, buf
      ensures Valid() && failures == old(failures) + (if n < 0 then 1 else 0)
      ensures n <= room && pos == old(pos) + (if n < 0 then 0 else n)
      ensures n == 0 ==> room == 0 || pos == |stream|
      ensures forall j | 0 <= j < buf.Length ::
                buf[j] == if offset <= j < offset + n then stream[old(pos) + (j - offset)] else old(buf[j])
    {
      var fault: bool := *;
      if fault {
        failures := failures + 1;
        return -1;
      }
      var left := |stream| - pos;
      var most := if room < left then room else left;
      n := *;
      if n < 1 {
        n := 1;
      }
      if n > most {
        n := most;
      }
      forall j | offset <= j < offset + n {
        buf[j] := stream[pos + (j - offset)];
      }
      pos := pos + n;
    }
  }

  ghost predicate IsCrlf(s: seq<char>, p: int) {
    0 <= p && p + 1 < |s| && s[p] == '\r' && s[p + 1] == '\n'
  }

  ghost predicate NoCrlf(s: seq<char>, n: nat) {
    forall q | 0 <= q < n :: !IsCrlf(s, q)
  }

  /** From `first` on, the stream holds exactly one line: its only LF ends it, after a CR, and it
      holds no NUL. */
  ghost predicate IsLine(stream: string, first: nat) {
    && first + 2 <= |stream| && IsCrlf(stream, |stream| - 2)
    && (forall j | first <= j < |stream| - 1 :: stream[j] != '\n')
    && (forall j | first <= j < |stream| :: stream[j] != NUL)
  }

  /** strstr for CRLF: only the text before the terminator is searched. */
  method FindCrlf(buf: array<char>) returns (found: bool, p: nat)
    requires Terminated(buf[..])
    ensures found ==> IsCrlf(buf[..], p) && p + 1 < StrLen(buf[..]) && NoCrlf(buf[..], p)
    ensures !found ==> NoCrlf(buf[..], StrLen(buf[..]))
  {
    p := 0;
    while buf[p] != NUL
      invariant p <= StrLen(buf[..])
      invariant NoCrlf(buf[..], p)
      decreases buf.Length - p
    {
      if buf[p] == '\r' && buf[p + 1] == '\n' {
        return true, p;
      }
      p := p + 1;
    }
    return false, p;
  }

  /** The buffer starts with the last `total` of the bytes received up to `pos`. */
  ghost predicate Tail(stream: string, first: nat, pos: nat, text: seq<char>, total: nat) {
    && first + total <= pos <= |stream| && total <= |text|
    && forall j | 0 <= j < total :: text[j] == stream[pos - total + j]
  }

  /** What is known of a line before a receive: it is not complete, no LF is in the buffer, and a CR
      just received still is. Unless the buffer has overflowed, it holds everything received. */
  ghost predicate Progress(stream: string, first: nat, pos: nat, text: seq<char>, total: nat, overflow: bool) {
    && Tail(stream, first, pos, text, total) && pos < |stream|
    && (forall j | 0 <= j < |text| :: text[j] != '\n')
    && (if overflow then |stream| - first >= |text| else total == pos - first)
    && (total == 0 && pos > first ==> stream[pos - 1] != '\r')
  }

  /** The same after a receive and before the search: the LF is in the buffer exactly when the line
      is complete, and then the CR is next to it. */
  ghost predicate Received(stream: string, first: nat, pos: nat, text: seq<char>, total: nat, overflow: bool) {
    && Tail(stream, first, pos, text, total) && 0 < total < |text|
    && (forall j | 0 <= j < |text| && text[j] == '\n' :: pos == |stream| && j == total - 1)
    && (if overflow then |stream| - first >= |text| else total == pos - first)
    && (pos == |stream| ==> total >= 2)
  }

  lemma ChunkReceived(stream: string, first: nat, pos: nat, text: seq<char>, total: nat, overflow: bool,
      n: nat, after: seq<char>)
    requires IsLine(stream, first) && Progress(stream, first, pos, text, total, overflow)
    requires 0 < n <= |stream| - pos && total + n < |text| == |after|
    requires forall j | 0 <= j < |text| ::
               after[j] == if total <= j < total + n then stream[pos + (j - total)] else text[j]
    ensures Received(stream, first, pos + n, after, total + n, overflow)
  {
  }

  /** What serving one line comes to: the line and the number of bytes received when the buffer has
      room for line, CRLF and terminator; otherwise everything is consumed and the line is refused.
      A buffer of two has no room to keep a CR and receive the LF. */
  ghost predicate Served(stream: string, first: nat, pos: nat, text: seq<char>, outcome: Outcome) {
    first + 2 <= |stream| &&
    var line := stream[first..|stream| - 2];
    if |text| < 3 then outcome == ConnectionReset
    else
      && pos == |stream|
      && (if |line| + 3 <= |text| then outcome == Line(|line| + 2) && Terminated(text) && Text(text) == line
          else outcome == Overflow)
  }

  lemma NoNulBefore(s: seq<char>, n: nat)
    requires n <= |s| && forall j | 0 <= j < n :: s[j] != NUL
    ensures n <= StrLen(s)
  {
  }

  /** A search succeeds exactly when the line is complete, and finds its ending. */
  lemma SearchDecides(stream: string, first: nat, pos: nat, text: seq<char>, total: nat, overflow: bool,
      found: bool, p: nat)
    requires IsLine(stream, first) && Received(stream, first, pos, text, total, overflow)
    requires found ==> IsCrlf(text, p)
    requires !found ==> NoCrlf(text, StrLen(text))
    ensures found <==> pos == |stream|
    ensures found ==> p == total - 2
  {
    if pos == |stream| {
      assert text[total - 2] == stream[|stream| - 2] && text[total - 1] == stream[|stream| - 1];
      assert IsCrlf(text, total - 2);
      NoNulBefore(text, total);
    }
  }

  lemma LineText(stream: string, first: nat, text: seq<char>)
    requires IsLine(stream, first) && |stream| - first < |text|
    requires Tail(stream, first, |stream|, text, |stream| - first)
    ensures var p := |stream| - first - 2;
            Served(stream, first, |stream|, text[p := NUL], Line(|stream| - first))
  {
    var n := |stream| - first - 2;
    var after := text[n := NUL];
    TextIs(after, n);
    assert after[..n] == stream[first..|stream| - 2];
  }

  lemma Started(stream: string, first: nat, text: seq<char>)
    requires IsLine(stream, first) && forall j | 0 <= j < |text| :: text[j] == NUL
    ensures Progress(stream, first, first, text, 0, false)
  {
  }

  lemma LastIsNul(s: seq<char>)
    requires s != [] && s[|s| - 1] == NUL
    ensures Terminated(s)
  {
  }

  lemma NotYet(stream: string, first: nat, pos: nat, text: seq<char>, total: nat, overflow: bool)
    requires Received(stream, first, pos, text, total, overflow) && pos < |stream|
    ensures Progress(stream, first, pos, text, total, overflow)
  {
  }

  /** A full buffer is emptied, except for a CR that may be half of the line ending. */
  lemma Emptied(stream: string, first: nat, pos: nat, text: seq<char>, overflow: bool, after: seq<char>)
    requires |text| >= 2 && |after| == |text| && pos < |stream|
    requires Received(stream, first, pos, text, |text| - 1, overflow)
    requires var cr := text[|text| - 2] == '\r';
             && after[0] == (if cr then '\r' else NUL)
             && (forall j | 0 < j < |text| :: after[j] == if cr && j == 1 then NUL else text[j])
    ensures Progress(stream, first, pos, after, if text[|text| - 2] == '\r' then 1 else 0, true)
  {
  }

  lemma Stuck(stream: string, first: nat, pos: nat, text: seq<char>)
    requires IsLine(stream, first) && |text| == 2
    ensures Served(stream, first, pos, text, ConnectionReset)
  {
  }

  /** One receive into the free part of the buffer; the last byte stays free for the terminator. */
  method Receive(socket: Socket, buffer: array<char>, total: nat, overflow: bool, ghost first: nat)
      returns (readLen: int)
    requires socket.Valid() && total < buffer.Length && buffer[buffer.Length - 1] == NUL
    requires IsLine(socket.stream, first) ==>
               Progress(socket.stream, first, socket.pos, buffer[..], total, overflow)
    modifies socket, buffer
    ensures socket.Valid() && buffer[buffer.Length - 1] == NUL
    ensures socket.failures == old(socket.failures) + (if readLen < 0 then 1 else 0)
    ensures readLen == 0 && IsLine(socket.stream, first) ==> total == buffer.Length - 1
    ensures readLen > 0 ==> total + readLen < buffer.Length && socket.pos > old(socket.pos)
    ensures readLen > 0 && IsLine(socket.stream, first) ==>
              Received(socket.stream, first, socket.pos, buffer[..], total + readLen, overflow)
  {
    assert IsLine(socket.stream, first) ==> socket.pos < |socket.stream|;
    hide IsLine, Progress, Received;
    ghost var pos, text := socket.pos, buffer[..];
    readLen := socket.Recv(buffer, total, buffer.Length - total - 1);
    if readLen > 0 && IsLine(socket.stream, first) {
      ChunkReceived(socket.stream, first, pos, text, total, overflow, readLen, buffer[..]);
    }
  }

  method Terminate(buffer: array<char>, p: nat)
    requires p < buffer.Length
    modifies buffer
    ensures buffer[..] == old(buffer[..])[p := NUL]
  {
    buffer[p] := NUL;
  }

  method Discard(buffer: array<char>, ghost stream: string, ghost first: nat, ghost pos: nat, ghost overflow: bool)
      returns (total: nat)
    requires buffer.Length >= 2 && buffer[buffer.Length - 1] == NUL
    requires IsLine(stream, first) ==>
               pos < |stream| && Received(stream, first, pos, buffer[..], buffer.Length - 1, overflow)
    modifies buffer
    ensures total == if old(buffer[buffer.Length - 2]) == '\r' then 1 else 0
    ensures buffer[buffer.Length - 1] == NUL
    ensures IsLine(stream, first) ==> Progress(stream, first, pos, buffer[..], total, true)
  {
    hide IsLine, Progress, Received;
    ghost var text := buffer[..];
    if buffer[buffer.Length - 2] == '\r' {
      total := 1;
      buffer[0] := '\r';
      buffer[1] := NUL;
    } else {
      total := 0;
      buffer[0] := NUL;
    }
    if IsLine(stream, first) {
      Emptied(stream, first, pos, text, overflow, buffer[..]);
    }
  }

  /** The search after a receive, and the outcome when it succeeds. */
  method Search(buffer: array<char>, total: nat, overflow: bool, ghost stream: string, ghost first: nat, ghost pos: nat)
      returns (found: bool, outcome: Outcome)
    requires total < buffer.Length && buffer[buffer.Length - 1] == NUL
    requires IsLine(stream, first) ==> Received(stream, first, pos, buffer[..], total, overflow)
    modifies buffer
    ensures outcome == if overflow then Overflow else Line(total)
    ensures found && IsLine(stream, first) ==> Served(stream, first, pos, buffer[..], outcome)
    ensures buffer[buffer.Length - 1] == NUL
    ensures !found && IsLine(stream, first) ==>
              pos < |stream| && Received(stream, first, pos, buffer[..], total, overflow)
  {
    LastIsNul(buffer[..]);
    ghost var text := buffer[..];
    var p;
    found, p := FindCrlf(buffer);
    if IsLine(stream, first) {
      SearchDecides(stream, first, pos, text, total, overflow, found, p);
      if found && !overflow {
        LineText(stream, first, text);
      }
    }
    outcome := if overflow then Overflow else Line(total);
    if found && !overflow {
      Terminate(buffer, p);
    }
  }

  /** Serves a stream until the line ends, the peer closes or receiving fails. */
  method ReceiveLine(socket: Socket, buffer: array<char>) returns (outcome: Outcome)
    requires socket.Valid()
    requires buffer.Length >= 2 && forall j | 0 <= j < buffer.Length :: buffer[j] == NUL
    modifies socket, buffer
    ensures socket.Valid() && outcome != InvalidArgument
    ensures outcome.Failed? <==> socket.failures > old(socket.failures)
    ensures IsLine(socket.stream, old(socket.pos)) && !outcome.Failed? ==>
              Served(socket.stream, old(socket.pos), socket.pos, buffer[..], outcome)
  {
    ghost var first := socket.pos;
    if IsLine(socket.stream, first) {
      Started(socket.stream, first, buffer[..]);
    }
    hide IsLine, Progress, Received, Served;
    var totalReadLen := 0;
    var overflow := false;
    while true
      invariant socket.Valid() && totalReadLen < buffer.Length && buffer[buffer.Length - 1] == NUL
      invariant totalReadLen == buffer.Length - 1 ==> buffer.Length == 2
      invariant socket.failures == old(socket.failures)
      invariant IsLine(socket.stream, first) ==>
          Progress(socket.stream, first, socket.pos, buffer[..], totalReadLen, overflow)
      decreases |socket.stream| - socket.pos
    {
      var readLen := Receive(socket, buffer, totalReadLen, overflow, first);
      if readLen == 0 {
        if IsLine(socket.stream, first) {
          Stuck(socket.stream, first, socket.pos, buffer[..]);
        }
        return ConnectionReset;
      } else if readLen < 0 {
        return Failed(readLen);
      }
      totalReadLen := totalReadLen + readLen;

      var found, line := Search(buffer, totalReadLen, overflow, socket.stream, first, socket.pos);
      if found {
        return line;
      }

      if totalReadLen == buffer.Length - 1 {
        totalReadLen := Discard(buffer, socket.stream, first, socket.pos, overflow);
        overflow := true;
      } else if IsLine(socket.stream, first) {
        NotYet(socket.stream, first, socket.pos, buffer[..], totalReadLen, overflow);
      }
    }
  }

  method ReadLine(socket: Socket, buffer: array?<char>) returns (outcome: Outcome)
    requires socket.Valid()
    modifies socket, buffer
    ensures socket.Valid()
    ensures outcome == InvalidArgument <==> buffer == null || buffer.Length < 2
    ensures outcome == InvalidArgument ==> socket.pos == old(socket.pos)
    ensures outcome.Failed? <==> socket.failures > old(socket.failures)
    ensures buffer != null && buffer.Length >= 2 && IsLine(socket.stream, old(socket.pos)) && !outcome.Failed? ==>
              Served(socket.stream, old(socket.pos), socket.pos, buffer[..], outcome)
  {
    if buffer == null || buffer.Length < 2 {
      return InvalidArgument;
    }
    forall j | 0 <= j < buffer.Length {
      buffer[j] := NUL;
    }
    hide Served, IsLine;
    outcome := ReceiveLine(socket, buffer);
  }
}
