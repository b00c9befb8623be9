/** Line framing, main/tls_transport.c: a partial-write loop and a bounded line reader that undo each other
    across the relay. */
module Lines {
  import opened Bytes
  import Relay

  const LF: byte := 0x0A
  const CR: byte := 0x0D

  // ---- Writing -----------------------------------------------------------

  /** One return of esp_tls_conn_write: want-read or want-write, some octets taken, or an error. */
  datatype WriteResult = Again | Took(count: nat) | Broken

  /** A write takes at least one octet and no more than it was offered. */
  function Taken(r: WriteResult, offered: nat): nat
    requires r.Took? && offered > 0
  {
    if r.count == 0 then 1 else if r.count > offered then offered else r.count
  }

  /** How a write ended: whether all of it went out, what went out, and the results still to come. A list of
      results that runs out leaves a connection that takes everything. */
  datatype Sent = Sent(ok: bool, octets: Bytes, results: seq<WriteResult>)

  function WriteAll(data: Bytes, results: seq<WriteResult>): Sent
    decreases |results|
  {
    if |data| == 0 then Sent(true, [], results)
    else if |results| == 0 then Sent(true, data, [])
    else match results[0]
      case Again => WriteAll(data, results[1..])
      case Broken => Sent(false, [], results[1..])
      case Took(_) =>
        var n := Taken(results[0], |data|);
        var rest := WriteAll(data[n..], results[1..]);
        rest.(octets := data[..n] + rest.octets)
  }

  /** However the writes were split and retried, success means all of the data went out, failure a proper
      prefix of it. */
  lemma {:induction false} WriteAllSends(data: Bytes, results: seq<WriteResult>)
    ensures var s := WriteAll(data, results);
            if s.ok then s.octets == data else s.octets <= data && s.octets != data
    decreases |results|
  {
    if |data| == 0 || |results| == 0 {
    } else {
      match results[0]
      case Again => WriteAllSends(data, results[1..]);
      case Broken =>
      case Took(_) =>
        var n := Taken(results[0], |data|);
        WriteAllSends(data[n..], results[1..]);
        assert data == data[..n] + data[n..];
    }
  }

  /** What a connection takes before it breaks: an octet a time at least. */
  function Room(results: seq<WriteResult>): nat {
    if |results| == 0 || results[0] == Broken then 0
    else (if results[0] == Again then 0 else if results[0].count == 0 then 1 else results[0].count) + Room(results[1..])
  }

  /** A write fails if and only if the connection breaks before it has taken all of the data, and what it had taken by
      then is what went out. */
  lemma {:induction false} WriteFailsIff(data: Bytes, results: seq<WriteResult>)
    ensures var s, fails := WriteAll(data, results), Broken in results && Room(results) < |data|;
            (s.ok <==> !fails) && s.octets == if fails then data[..Room(results)] else data
    decreases |results|
  {
    if |data| == 0 || |results| == 0 {
    } else {
      assert results == [results[0]] + results[1..];
      match results[0]
      case Again => WriteFailsIff(data, results[1..]);
      case Broken => assert data[..0] == [];
      case Took(_) =>
        var n := Taken(results[0], |data|);
        WriteFailsIff(data[n..], results[1..]);
        assert data == data[..n] + data[n..];
        if Room(results) < |data| {
          assert data[..Room(results)] == data[..n] + data[n..][..Room(results[1..])];
        }
    }
  }

  lemma PrefixGrows(data: Bytes, cursor: nat, n: nat)
    requires cursor + n <= |data|
    ensures data[..cursor] + data[cursor..][..n] == data[..cursor + n]
  {
  }

  /** How write_all ends once cursor octets are out. */
  function Onward(data: Bytes, cursor: nat, results: seq<WriteResult>): Sent
    requires cursor <= |data|
  {
    var s := WriteAll(data[cursor..], results);
    s.(octets := data[..cursor] + s.octets)
  }

  /** One turn of the loop moves the cursor, or retries, or gives up. */
  lemma OnwardTurn(data: Bytes, cursor: nat, results: seq<WriteResult>)
    requires cursor < |data|
    ensures Onward(data, cursor, results) ==
            if |results| == 0 then Onward(data, |data|, [])
            else match results[0]
              case Again => Onward(data, cursor, results[1..])
              case Broken => Sent(false, data[..cursor], results[1..])
              case Took(_) => Onward(data, cursor + Taken(results[0], |data| - cursor), results[1..])
  {
    if |results| == 0 {
      assert data[..cursor] + data[cursor..] == data[..|data|] + [];
    } else if results[0].Took? {
      var n := Taken(results[0], |data| - cursor);
      assert data[cursor..][n..] == data[cursor + n..];
      var rest := WriteAll(data[cursor + n..], results[1..]);
      assert data[..cursor] + (data[cursor..][..n] + rest.octets) == data[..cursor + n] + rest.octets;
    }
  }

  lemma OnwardEnds(data: Bytes, results: seq<WriteResult>)
    ensures Onward(data, 0, results) == WriteAll(data, results)
    ensures Onward(data, |data|, results) == Sent(true, data, results)
  {
    assert data[0..] == data;
    assert data[..|data|] + [] == data;
    assert data[..0] + WriteAll(data, results).octets == WriteAll(data, results).octets;
  }

  /** tls_transport_send_line. */
  function SendLine(line: Bytes, results: seq<WriteResult>): Sent {
    var body := WriteAll(line, results);
    if !body.ok then body
    else
      var end := WriteAll([LF], body.results);
      end.(octets := body.octets + end.octets)
  }

  /** Success means the line and its terminator went out, failure a proper prefix of the two: no terminator follows
      a line that is not complete. */
  lemma SendLineSends(line: Bytes, results: seq<WriteResult>)
    ensures var s := SendLine(line, results);
            if s.ok then s.octets == line + [LF] else s.octets <= line + [LF] && s.octets != line + [LF]
    ensures !SendLine(line, results).ok ==> SendLine(line, results).octets <= line
  {
    hide WriteAll;
    WriteAllSends(line, results);
    WriteAllSends([LF], WriteAll(line, results).results);
  }

  /** Lines sent one after the other for as long as sending succeeds. */
  function SendLines(lines: seq<Bytes>, results: seq<WriteResult>): Sent {
    if |lines| == 0 then Sent(true, [], results)
    else
      var first := SendLine(lines[0], results);
      if !first.ok then first
      else
        var rest := SendLines(lines[1..], first.results);
        rest.(octets := first.octets + rest.octets)
  }

  function Joined(lines: seq<Bytes>): Bytes {
    if |lines| == 0 then [] else (lines[0] + [LF]) + Joined(lines[1..])
  }

  /** Lines sent successfully are on the wire, each with its terminator; when sending fails, a proper prefix of
      that is. */
  lemma {:induction false} SendLinesJoins(lines: seq<Bytes>, results: seq<WriteResult>)
    ensures var s := SendLines(lines, results);
            if s.ok then s.octets == Joined(lines) else s.octets <= Joined(lines) && s.octets != Joined(lines)
    decreases |lines|
  {
    hide SendLine;
    if |lines| == 0 {
    } else {
      SendLineSends(lines[0], results);
      SendLinesJoins(lines[1..], SendLine(lines[0], results).results);
    }
  }

  // ---- The relay's line handling -----------------------------------------

  /** The number of octets StreamReader.readline returns: through the first LF, or all there is. */
  function LineLength(octets: Bytes): (n: nat)
    ensures n <= |octets| && (|octets| > 0 ==> n > 0)
  {
    if |octets| == 0 then 0 else if octets[0] == LF then 1 else 1 + LineLength(octets[1..])
  }

  /** Every line read is stripped, terminated again and passed on. */
  function Relayed(octets: Bytes): Bytes
    decreases |octets|
  {
    if |octets| == 0 then []
    else Relay.Framed(octets[..LineLength(octets)]) + Relayed(octets[LineLength(octets)..])
  }

  /** A line both ends can carry: not empty, without CR or LF, and short enough for the reader's buffer. */
  predicate Carriable(line: Bytes, capacity: nat) {
    && 0 < |line| && |line| + 2 <= capacity
    && forall i | 0 <= i < |line| :: line[i] != LF && line[i] != CR
  }

  lemma {:induction false} LineLengthOf(line: Bytes, more: Bytes)
    requires forall i | 0 <= i < |line| :: line[i] != LF
    ensures LineLength(line + [LF] + more) == |line| + 1
  {
    if |line| == 0 {
    } else {
      LineLengthOf(line[1..], more);
      assert (line + [LF] + more)[1..] == line[1..] + [LF] + more;
    }
  }

  lemma {:induction false} RelayPassesLines(lines: seq<Bytes>, capacity: nat)
    requires forall i | 0 <= i < |lines| :: Carriable(lines[i], capacity)
    ensures Relayed(Joined(lines)) == Joined(lines)
    decreases |lines|
  {
    if |lines| == 0 {
    } else {
      var line, more := lines[0], Joined(lines[1..]);
      var raw := line + [LF];
      assert Carriable(lines[0], capacity);
      LineLengthOf(line, more);
      assert Joined(lines)[..|line| + 1] == raw && Joined(lines)[|line| + 1..] == more;
      assert raw[..|raw| - 1] == line;
      assert line[|line| - 1] != LF && line[|line| - 1] != CR;
      assert Relay.StripLineEnd(line) == line;
      assert Relay.StripLineEnd(raw) == line;
      RelayPassesLines(lines[1..], capacity);
    }
  }

  // ---- Reading -----------------------------------------------------------

  /** One return of esp_tls_conn_read: want-read or want-write, or an octet. */
  datatype Reading = Stall | Octet(octet: byte)

  function Octets(input: seq<Reading>): Bytes {
    if |input| == 0 then [] else (if input[0].Octet? then [input[0].octet] else []) + Octets(input[1..])
  }

  /** What tls_transport_read_line returns, the text in the buffer, whether a NUL follows it, and the rest. */
  datatype Read = Read(length: int, text: Bytes, terminated: bool, rest: seq<Reading>)

  /** The reader, with some text already in the buffer. The input ends with the connection's closing code. A
      line that ends with the connection is returned without a terminator. */
  function ReadLine(input: seq<Reading>, text: Bytes, capacity: nat, closing: int): Read
    decreases |input|
  {
    if |text| + 1 >= capacity then Read(|text|, text, true, input)
    else if |input| == 0 then Read(if |text| == 0 then closing else |text|, text, false, [])
    else match input[0]
      case Stall => ReadLine(input[1..], text, capacity, closing)
      case Octet(c) =>
        if c == LF then Read(|text|, text, true, input[1..])
        else ReadLine(input[1..], if c == CR then text else text + [c], capacity, closing)
  }

  lemma {:induction false} ReadLineProgress(input: seq<Reading>, text: Bytes, capacity: nat, closing: int)
    requires |text| + 1 < capacity && |input| > 0
    ensures |ReadLine(input, text, capacity, closing).rest| < |input|
    decreases |input|
  {
    var next := match input[0]
                case Stall => text
                case Octet(c) => if c == CR then text else text + [c];
    if input[0] != Octet(LF) && |next| + 1 < capacity && |input| > 1 {
      ReadLineProgress(input[1..], next, capacity, closing);
    }
  }

  /** The receiver's loop: lines until one has no positive length. */
  function ReadLines(input: seq<Reading>, capacity: nat, closing: int): seq<Bytes>
    requires capacity >= 2
    decreases |input|
  {
    if |input| == 0 then []
    else
      ReadLineProgress(input, [], capacity, closing);
      var r := ReadLine(input, [], capacity, closing);
      if r.length <= 0 then [] else [r.text] + ReadLines(r.rest, capacity, closing)
  }

  lemma {:induction false} ReadsOneLine(input: seq<Reading>, text: Bytes, line: Bytes, more: Bytes,
                                        capacity: nat, closing: int)
    requires Octets(input) == line + [LF] + more
    requires forall i | 0 <= i < |line| :: line[i] != LF && line[i] != CR
    requires |text| + |line| + 2 <= capacity
    ensures var r := ReadLine(input, text, capacity, closing);
            r.length == |text| + |line| && r.text == text + line && r.terminated && Octets(r.rest) == more
    decreases |input|
  {
    if input[0].Stall? {
      ReadsOneLine(input[1..], text, line, more, capacity, closing);
    } else {
      var c := input[0].octet;
      assert Octets(input) == [c] + Octets(input[1..]);
      assert c == (line + [LF] + more)[0];
      assert Octets(input[1..]) == (line + [LF] + more)[1..];
      if |line| == 0 {
        assert (line + [LF] + more)[1..] == more;
        assert text + line == text;
      } else {
        assert (line + [LF] + more)[1..] == line[1..] + [LF] + more;
        ReadsOneLine(input[1..], text + [c], line[1..], more, capacity, closing);
        assert (text + [c]) + line[1..] == text + line;
      }
    }
  }

  /** What the reader keeps: all but the CRs. */
  function Kept(octets: Bytes): Bytes {
    if |octets| == 0 then [] else (if octets[0] == CR then [] else [octets[0]]) + Kept(octets[1..])
  }

  /** Until the buffer is full or a LF comes, the reader takes octets in and leaves CRs out. */
  lemma {:induction false} ReadsOn(input: seq<Reading>, text: Bytes, body: Bytes, more: Bytes,
                                   capacity: nat, closing: int)
    returns (later: seq<Reading>)
    requires Octets(input) == body + more && LF !in body && |text| + |Kept(body)| + 1 < capacity
    ensures Octets(later) == more
    ensures ReadLine(input, text, capacity, closing) == ReadLine(later, text + Kept(body), capacity, closing)
    decreases |input|
  {
    if |body| == 0 {
      assert body + more == more && text + Kept(body) == text;
      later := input;
    } else if input[0].Stall? {
      later := ReadsOn(input[1..], text, body, more, capacity, closing);
    } else {
      var c := input[0].octet;
      assert Octets(input)[1..] == Octets(input[1..]);
      assert c == (body + more)[0] == body[0];
      assert (body + more)[1..] == body[1..] + more;
      var next := if c == CR then text else text + [c];
      later := ReadsOn(input[1..], next, body[1..], more, capacity, closing);
      assert next + Kept(body[1..]) == text + Kept(body);
    }
  }

  /** An over-long line is cut where the buffer is full: its first octets but the CRs, terminated; the rest stays
      unread. */
  lemma ReadsUntilFull(input: seq<Reading>, body: Bytes, c: byte, more: Bytes, capacity: nat, closing: int)
    requires Octets(input) == body + [c] + more && LF !in body && c != LF && c != CR
    requires |Kept(body)| + 2 == capacity
    ensures var r := ReadLine(input, [], capacity, closing);
            r.length == capacity - 1 && r.text == Kept(body) + [c] && r.terminated && Octets(r.rest) == more
  {
    assert body + [c] + more == body + ([c] + more);
    var later := ReadsOn(input, [], body, [c] + more, capacity, closing);
    assert [] + Kept(body) == Kept(body);
    TakesOne(later, Kept(body), c, more, capacity, closing);
  }

  lemma {:induction false} TakesOne(input: seq<Reading>, text: Bytes, c: byte, more: Bytes, capacity: nat, closing: int)
    requires Octets(input) == [c] + more && c != LF && c != CR && |text| + 2 == capacity
    ensures var r := ReadLine(input, text, capacity, closing);
            r.length == capacity - 1 && r.text == text + [c] && r.terminated && Octets(r.rest) == more
    decreases |input|
  {
    if input[0].Stall? {
      TakesOne(input[1..], text, c, more, capacity, closing);
    } else {
      assert Octets(input)[1..] == Octets(input[1..]);
      assert ([c] + more)[1..] == more;
    }
  }

  /** When the connection closes within a line, what has come of it is returned as a line; nothing, as the closing
      code. */
  lemma ReadsUntilClosed(input: seq<Reading>, capacity: nat, closing: int)
    requires LF !in Octets(input) && |Kept(Octets(input))| + 1 < capacity
    ensures var r, text := ReadLine(input, [], capacity, closing), Kept(Octets(input));
            r == Read(if text == [] then closing else |text|, text, false, [])
  {
    assert Octets(input) == Octets(input) + [];
    var later := ReadsOn(input, [], Octets(input), [], capacity, closing);
    assert [] + Kept(Octets(input)) == Kept(Octets(input));
    OnlyStalls(later, Kept(Octets(input)), capacity, closing);
  }

  lemma {:induction false} OnlyStalls(input: seq<Reading>, text: Bytes, capacity: nat, closing: int)
    requires Octets(input) == [] && |text| + 1 < capacity
    ensures ReadLine(input, text, capacity, closing)
            == Read(if |text| == 0 then closing else |text|, text, false, [])
    decreases |input|
  {
    if |input| > 0 {
      OnlyStalls(input[1..], text, capacity, closing);
    }
  }

  lemma {:induction false} SilenceHasNoLine(input: seq<Reading>, capacity: nat, closing: int)
    requires Octets(input) == [] && capacity >= 2 && closing <= 0
    ensures ReadLine(input, [], capacity, closing).length <= 0
    decreases |input|
  {
    if |input| == 0 {
    } else {
      SilenceHasNoLine(input[1..], capacity, closing);
    }
  }

  lemma {:induction false} ReadsAllLines(lines: seq<Bytes>, input: seq<Reading>, capacity: nat, closing: int)
    requires forall i | 0 <= i < |lines| :: Carriable(lines[i], capacity)
    requires Octets(input) == Joined(lines) && capacity >= 2 && closing <= 0
    ensures ReadLines(input, capacity, closing) == lines
    decreases |lines|
  {
    if |lines| == 0 {
      SilenceHasNoLine(input, capacity, closing);
    } else {
      assert Carriable(lines[0], capacity);
      ReadsOneLine(input, [], lines[0], Joined(lines[1..]), capacity, closing);
      var r := ReadLine(input, [], capacity, closing);
      assert r.text == lines[0];
      ReadsAllLines(lines[1..], r.rest, capacity, closing);
      assert lines == [lines[0]] + lines[1..];
    }
  }

  /** Whatever the schedules of partial writes and of would-block results at both ends, the lines that were sent
      come out of the receiver's loop one by one, through the relay. */
  lemma FramingRoundTrip(lines: seq<Bytes>, results: seq<WriteResult>, input: seq<Reading>, capacity: nat, closing: int)
    requires forall i | 0 <= i < |lines| :: Carriable(lines[i], capacity)
    requires capacity >= 2 && closing <= 0
    requires SendLines(lines, results).ok
    requires Octets(input) == Relayed(SendLines(lines, results).octets)
    ensures ReadLines(input, capacity, closing) == lines
  {
    SendLinesJoins(lines, results);
    RelayPassesLines(lines, capacity);
    ReadsAllLines(lines, input, capacity, closing);
  }

  // ---- The transport -----------------------------------------------------

  /** A TLS connection: what was written to it and the results its next writes give; what its next reads give
      and the code they give after that. */
  class Connection {
    var written: Bytes
    var results: seq<WriteResult>
    var input: seq<Reading>
    const closing: int

    constructor (results: seq<WriteResult>, input: seq<Reading>, closing: int)
      ensures this.results == results && this.input == input && this.closing == closing && written == []
    {
      this.written, this.results, this.input, this.closing := [], results, input, closing;
    }

    method Write(data: Bytes) returns (r: WriteResult)
      requires |data| > 0
      modifies this`written, this`results
      ensures results == if |old(results)| == 0 then [] else old(results)[1..]
      ensures |old(results)| == 0 ==> r == Took(|data|)
      ensures |old(results)| > 0 ==>
                r == if old(results)[0].Took? then Took(Taken(old(results)[0], |data|)) else old(results)[0]
      ensures r.Took? ==> 0 < r.count <= |data|
      ensures written == old(written) + if r.Took? then data[..r.count] else []
    {
      if |results| == 0 {
        r := Took(|data|);
      } else {
        r := if results[0].Took? then Took(Taken(results[0], |data|)) else results[0];
        results := results[1..];
      }
      if r.Took? {
        written := written + data[..r.count];
      }
    }

    /** write_all. */
    method SendAll(data: Bytes) returns (ok: bool)
      modifies this`written, this`results
      ensures var s := WriteAll(data, old(results));
              ok == s.ok && written == old(written) + s.octets && results == s.results
    {
      hide WriteAll, Onward;
      var cursor := 0;
      ghost var spec := WriteAll(data, results);
      OnwardEnds(data, results);
      while cursor < |data|
        invariant 0 <= cursor <= |data|
        invariant written == old(written) + data[..cursor]
        invariant spec == Onward(data, cursor, results)
        decreases |results|, |data| - cursor
      {
        OnwardTurn(data, cursor, results);
        var r := Write(data[cursor..]);
        match r {
          case Again =>
          case Broken =>
            return false;
          case Took(n) =>
            PrefixGrows(data, cursor, n);
            cursor := cursor + n;
        }
      }
      OnwardEnds(data, results);
      return true;
    }

    /** tls_transport_send_line. */
    method SendOneLine(line: Bytes) returns (ok: bool)
      modifies this`written, this`results
      ensures var s := SendLine(line, old(results));
              ok == s.ok && written == old(written) + s.octets && results == s.results
    {
      ok := SendAll(line);
      if ok {
        ok := SendAll([LF]);
      }
    }

    /** tls_transport_read_line into a buffer of at least two octets. */
    method ReadOneLine(buffer: array<byte>) returns (length: int)
      requires buffer.Length >= 2
      modifies this`input, buffer
      ensures var r := ReadLine(old(input), [], buffer.Length, closing);
              && length == r.length && input == r.rest
              && |r.text| < buffer.Length && buffer[..|r.text|] == r.text
              && (r.terminated ==> buffer[|r.text|] == 0)
    {
      var used := 0;
      ghost var spec := ReadLine(input, [], buffer.Length, closing);
      while used + 1 < buffer.Length
        invariant 0 <= used < buffer.Length
        invariant spec == ReadLine(input, buffer[..used], buffer.Length, closing)
        decreases |input|
      {
        if |input| == 0 {
          return if used == 0 then closing else used;
        }
        var reading := input[0];
        input := input[1..];
        if reading.Octet? {
          if reading.octet == LF {
            buffer[used] := 0;
            return used;
          }
          if reading.octet != CR {
            ghost var text := buffer[..used];
            buffer[used] := reading.octet;
            used := used + 1;
            assert buffer[..used] == text + [reading.octet];
          }
        }
      }
      buffer[used] := 0;
      return used;
    }
  }
}
