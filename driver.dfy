/** The driver side: the radio's operating modes, the AUX ready line, the
    serial link, and the packet and configuration exchanges built on them.

    The hardware is abstract.  The AUX line is an oracle: the n-th wait for
    it sees the n-th window of observations (initial read, whether the
    armed edge arrived before the poll timed out, re-read).  The serial
    receive side is a queue of read results; an empty queue reads as the
    port's read timeout.  Every pin drive, edge arming, poll, baud change,
    write and read is recorded in an event log, so the order of the steps
    is part of each operation's contract. */
module Radio {
  import opened Bits
  import opened Outcomes
  import opened ConfigFrame

  /** A GPIO level. */
  type Level = x: nat | x <= 1

  /** Largest payload the module sends in one packet, in bytes. */
  const MaxPacket := 58

  /** Timeouts, in milliseconds, of the ready-line waits whose length the
      driver fixes itself. */
  const ModeWaitMs := 1000
  const BusyWaitMs := 5000

  /** The serial speed the module listens at while asleep. */
  const ConfigBaud := 9600

  /** The four operating modes, set through the M0 and M1 pins. */
  datatype RadioMode = General | Wakeup | PowerSaving | Sleep

  /** The (M0, M1) levels that select each mode: M0 is high for power
      saving and sleep, M1 for wake-up and sleep. */
  function Pins(m: RadioMode): (p: (Level, Level))
    ensures p.0 == 1 <==> m == PowerSaving || m == Sleep
    ensures p.1 == 1 <==> m == Wakeup || m == Sleep
  {
    match m
    case General => (0, 0)
    case Wakeup => (0, 1)
    case PowerSaving => (1, 0)
    case Sleep => (1, 1)
  }

  /** The mode a pair of pin levels selects. */
  function ModeOfPins(m0: Level, m1: Level): RadioMode
  {
    if m0 == 0 then (if m1 == 0 then General else Wakeup)
    else (if m1 == 0 then PowerSaving else Sleep)
  }

  /** Every mode has its own pin pair, and every pin pair selects a mode. */
  lemma PinsSelectMode(m: RadioMode, m0: Level, m1: Level)
    ensures ModeOfPins(Pins(m).0, Pins(m).1) == m
    ensures Pins(ModeOfPins(m0, m1)) == (m0, m1)
  {
  }

  // ---------------------------------------------------------------------
  // The AUX ready line.

  /** What one wait on the AUX line observes: the level read first, whether
      the poll saw the armed edge before its timeout, and the level read
      again after a poll timeout. */
  datatype AuxWindow = AuxWindow(first: Level, edge: bool, last: Level)

  /** A wait for value succeeds when the line already has the value, when
      the edge towards it arrives, or when a late re-read finds it there. */
  predicate Ready(value: Level, w: AuxWindow)
  {
    w.first == value || w.edge || w.last == value
  }

  /** What the driver does on the wire and on the pins. */
  datatype Event =
    | SampleAux(level: Level)     // the AUX level is read
    | ArmEdge(rising: bool)       // the AUX interrupt edge is armed
    | PollAux(timeoutMs: nat)     // the driver blocks until the edge or the timeout
    | DriveM0(level: Level)
    | DriveM1(level: Level)
    | SetBaud(rate: nat)          // the serial port's speed is changed
    | Write(bytes: seq<Byte>)     // bytes are handed to the serial port
    | Read(result: ReadResult)    // one read call on the serial port

  /** The outcome of one read call on the serial port: the bytes it
      delivered, the read timeout that means no more data, or any other
      failure. */
  datatype ReadResult = Data(bytes: seq<Byte>) | ReadTimeout | ReadFailure

  /** The events of one wait for value with the given poll timeout: the
      first read, then, unless it already shows the value, the edge arming
      and the poll, then, unless the edge came, the re-read. */
  function WaitEvents(value: Level, timeout: nat, w: AuxWindow): seq<Event>
  {
    [SampleAux(w.first)] +
    (if w.first == value then []
     else [ArmEdge(value == 1), PollAux(timeout)] + (if w.edge then [] else [SampleAux(w.last)]))
  }

  /** A wait that finds the value at once never arms an edge or polls;
      any other wait polls exactly once, with the edge towards the value. */
  lemma WaitPollsUnlessThere(value: Level, timeout: nat, w: AuxWindow)
    ensures w.first == value <==> WaitEvents(value, timeout, w) == [SampleAux(w.first)]
    ensures w.first != value ==>
              WaitEvents(value, timeout, w)[1..3] == [ArmEdge(value == 1), PollAux(timeout)]
    ensures w.first != value ==> (|WaitEvents(value, timeout, w)| == 3 <==> w.edge)
  {
    if w.first != value {
      assert |WaitEvents(value, timeout, w)| >= 3;
    }
  }

  /** The events of set_mode: a wait for the line to be high, the two pin
      drives, a second wait; nothing after a failed first wait. */
  function ModeEvents(m: RadioMode, w1: AuxWindow, w2: AuxWindow): seq<Event>
  {
    WaitEvents(1, ModeWaitMs, w1) +
    (if Ready(1, w1) then [DriveM0(Pins(m).0), DriveM1(Pins(m).1)] + WaitEvents(1, ModeWaitMs, w2)
     else [])
  }

  /** The pins are driven to the mode's pair exactly when the first wait
      succeeds, and always after the line was sampled. */
  lemma ModeEventsDrivePins(m: RadioMode, w1: AuxWindow, w2: AuxWindow)
    ensures DriveM0(Pins(m).0) in ModeEvents(m, w1, w2) <==> Ready(1, w1)
    ensures DriveM1(Pins(m).1) in ModeEvents(m, w1, w2) <==> Ready(1, w1)
    ensures ModeEvents(m, w1, w2)[0] == SampleAux(w1.first)
  {
    var e := ModeEvents(m, w1, w2);
    var n := |WaitEvents(1, ModeWaitMs, w1)|;
    if Ready(1, w1) {
      assert e[n] == DriveM0(Pins(m).0);
      assert e[n + 1] == DriveM1(Pins(m).1);
    } else {
      assert DriveM0(Pins(m).0) !in WaitEvents(1, ModeWaitMs, w1);
      assert DriveM1(Pins(m).1) !in WaitEvents(1, ModeWaitMs, w1);
    }
  }

  // ---------------------------------------------------------------------
  // Reading the serial port until it times out.

  /** What one serial_read consumes and returns: the bytes gathered, the
      read calls made, whether a failure cut it short, and the results
      left in the queue. */
  datatype Drained = Drained(data: seq<Byte>, calls: seq<Event>, failed: bool, rest: seq<ReadResult>)

  /** Reads until the first result that is not data; an empty queue reads
      as the timeout. */
  function Drain(q: seq<ReadResult>): Drained
    decreases |q|
  {
    if |q| == 0 then Drained([], [Read(ReadTimeout)], false, [])
    else match q[0]
      case Data(bytes) =>
        var d := Drain(q[1..]);
        Drained(bytes + d.data, [Read(q[0])] + d.calls, d.failed, d.rest)
      case ReadTimeout => Drained([], [Read(ReadTimeout)], false, q[1..])
      case ReadFailure => Drained([], [Read(ReadFailure)], true, q[1..])
  }

  /** What one drain leaves is a suffix of the queue, shorter unless the
      queue was empty; every read call but the last returned data, and the
      last returned the timeout or, exactly when the drain failed, the
      failure. */
  lemma {:induction false} DrainShape(q: seq<ReadResult>)
    ensures |Drain(q).rest| <= |q| && Drain(q).rest == q[|q| - |Drain(q).rest|..]
    ensures |q| > 0 ==> |Drain(q).rest| < |q|
    ensures |Drain(q).calls| > 0
    ensures Drain(q).calls[|Drain(q).calls| - 1] == Read(if Drain(q).failed then ReadFailure else ReadTimeout)
    ensures forall i :: 0 <= i < |Drain(q).calls| - 1 ==> Drain(q).calls[i].Read? && Drain(q).calls[i].result.Data?
    decreases |q|
  {
    if |q| > 0 && q[0].Data? {
      var d, e := Drain(q), Drain(q[1..]);
      DrainShape(q[1..]);
      assert d.calls == [Read(q[0])] + e.calls;
      assert q[1..][|q[1..]| - |e.rest|..] == q[|q| - |e.rest|..];
    }
  }

  /** Every result is data. */
  predicate AllData(q: seq<ReadResult>)
  {
    forall i :: 0 <= i < |q| ==> q[i].Data?
  }

  /** The bytes of a run of data results, in order. */
  function Concat(q: seq<ReadResult>): seq<Byte>
    requires AllData(q)
  {
    if |q| == 0 then [] else q[0].bytes + Concat(q[1..])
  }

  /** The read calls that return the given results. */
  function Reads(q: seq<ReadResult>): (e: seq<Event>)
    ensures |e| == |q|
    ensures forall i :: 0 <= i < |q| ==> e[i] == Read(q[i])
  {
    if |q| == 0 then [] else [Read(q[0])] + Reads(q[1..])
  }

  /** A run of data results followed by a stop: the data comes back
      concatenated in order, the stop is consumed, the rest stays queued,
      and only a failure counts as failed. */
  lemma {:induction false} DrainUntilStop(chunks: seq<ReadResult>, stop: ReadResult, rest: seq<ReadResult>)
    requires AllData(chunks) && !stop.Data?
    ensures Drain(chunks + [stop] + rest) ==
            Drained(Concat(chunks), Reads(chunks + [stop]), stop == ReadFailure, rest)
    decreases |chunks|
  {
    var q := chunks + [stop] + rest;
    if |chunks| == 0 {
      assert q[0] == stop && q[1..] == rest;
      assert Reads([stop]) == [Read(stop)];
    } else {
      assert q[0] == chunks[0] && q[1..] == chunks[1..] + [stop] + rest;
      assert AllData(chunks[1..]) by {
        forall i | 0 <= i < |chunks[1..]| ensures chunks[1..][i].Data? {
          assert chunks[1..][i] == chunks[i + 1];
        }
      }
      DrainUntilStop(chunks[1..], stop, rest);
      assert (chunks + [stop])[1..] == chunks[1..] + [stop];
    }
  }

  /** A queue of data only: everything is read, and the empty port then
      times out. */
  lemma {:induction false} DrainAll(chunks: seq<ReadResult>)
    requires AllData(chunks)
    ensures Drain(chunks) == Drained(Concat(chunks), Reads(chunks + [ReadTimeout]), false, [])
    decreases |chunks|
  {
    if |chunks| == 0 {
      assert Reads([ReadTimeout]) == [Read(ReadTimeout)];
    } else {
      assert AllData(chunks[1..]) by {
        forall i | 0 <= i < |chunks[1..]| ensures chunks[1..][i].Data? {
          assert chunks[1..][i] == chunks[i + 1];
        }
      }
      DrainAll(chunks[1..]);
      assert (chunks + [ReadTimeout])[1..] == chunks[1..] + [ReadTimeout];
    }
  }

  // ---------------------------------------------------------------------
  // The driver.

  class Driver {
    /** The AUX line: the window of observations each successive wait sees. */
    const aux: nat -> AuxWindow
    /** How many waits on the AUX line have been made. */
    var auxCalls: nat
    /** Read results the serial port has yet to deliver. */
    var rx: seq<ReadResult>
    var m0: Level
    var m1: Level
    var mode: RadioMode
    var baud: nat
    var log: seq<Event>

    /** A driver over the given lines starts out believing the module is
        asleep; the pins are left as they were. */
    constructor (auxLine: nat -> AuxWindow, incoming: seq<ReadResult>, portBaud: nat, m0Level: Level, m1Level: Level)
      ensures aux == auxLine && auxCalls == 0 && rx == incoming && baud == portBaud
      ensures m0 == m0Level && m1 == m1Level
      ensures mode == Sleep
      ensures log == []
    {
      aux := auxLine;
      auxCalls := 0;
      rx := incoming;
      baud := portBaud;
      m0, m1 := m0Level, m1Level;
      mode := Sleep;
      log := [];
    }

    /** wait_for_aux: read the line; if it is not already at value, arm the
        edge towards value and poll; if the poll times out, read again. */
    method WaitForAux(value: Level, timeout: nat) returns (r: Result<()>)
      modifies this`auxCalls, this`log
      ensures auxCalls == old(auxCalls) + 1
      ensures r == if Ready(value, aux(old(auxCalls))) then Ok(()) else Err(TimedOut)
      ensures log == old(log) + WaitEvents(value, timeout, aux(old(auxCalls)))
    {
      var w := aux(auxCalls);
      auxCalls := auxCalls + 1;
      log := log + [SampleAux(w.first)];
      if w.first == value {
        return Ok(());
      }
      log := log + [ArmEdge(value == 1), PollAux(timeout)];
      if w.edge {
        return Ok(());
      }
      log := log + [SampleAux(w.last)];
      if w.last != value {
        return Err(TimedOut);
      }
      r := Ok(());
    }

    /** set_mode: wait for the line, drive the pins, wait again, and only
        then record the mode.  A failed wait aborts. */
    method SetMode(m: RadioMode) returns (r: Result<()>)
      modifies this`auxCalls, this`log, this`m0, this`m1, this`mode
      ensures log == old(log) + ModeEvents(m, aux(old(auxCalls)), aux(old(auxCalls) + 1))
      ensures !Ready(1, aux(old(auxCalls))) ==>
                auxCalls == old(auxCalls) + 1 && r == Err(Abort(AuxTimeout)) &&
                m0 == old(m0) && m1 == old(m1) && mode == old(mode)
      ensures Ready(1, aux(old(auxCalls))) ==>
                auxCalls == old(auxCalls) + 2 && m0 == Pins(m).0 && m1 == Pins(m).1
      ensures Ready(1, aux(old(auxCalls))) && !Ready(1, aux(old(auxCalls) + 1)) ==>
                r == Err(Abort(AuxTimeout)) && mode == old(mode)
      ensures Ready(1, aux(old(auxCalls))) && Ready(1, aux(old(auxCalls) + 1)) ==>
                r == Ok(()) && mode == m
    {
      var before := WaitForAux(1, ModeWaitMs);
      if before.Err? {
        return Err(Abort(AuxTimeout));
      }
      var (level0, level1) := Pins(m);
      m0 := level0;
      log := log + [DriveM0(level0)];
      m1 := level1;
      log := log + [DriveM1(level1)];
      var after := WaitForAux(1, ModeWaitMs);
      if after.Err? {
        return Err(Abort(AuxTimeout));
      }
      mode := m;
      r := Ok(());
    }

    /** serial_write: the bytes go to the port. */
    method SerialWrite(data: seq<Byte>)
      modifies this`log
      ensures log == old(log) + [Write(data)]
    {
      log := log + [Write(data)];
    }

    /** serial_read: read chunks and append them until the port times out;
        any other read failure aborts. */
    method SerialRead() returns (r: Result<seq<Byte>>)
      modifies this`rx, this`log
      ensures var d := Drain(old(rx));
              && r == (if d.failed then Err(Abort(ReadFailed)) else Ok(d.data))
              && rx == d.rest
              && log == old(log) + d.calls
    {
      var buf: seq<Byte> := [];
      var bytesRead := 0;
      ghost var made: seq<Event> := [];
      while true
        invariant bytesRead == |buf|
        invariant Drain(old(rx)).data == buf + Drain(rx).data
        invariant Drain(old(rx)).calls == made + Drain(rx).calls
        invariant Drain(old(rx)).failed == Drain(rx).failed
        invariant Drain(old(rx)).rest == Drain(rx).rest
        invariant log == old(log) + made
        decreases |rx|
      {
        var result := if |rx| == 0 then ReadTimeout else rx[0];
        ghost var step := Drain(rx);
        if |rx| > 0 {
          rx := rx[1..];
        }
        log := log + [Read(result)];
        made := made + [Read(result)];
        match result
        case Data(bytes) =>
          buf := buf + bytes;
          bytesRead := bytesRead + |bytes|;
        case ReadTimeout =>
          assert step == Drained([], [Read(ReadTimeout)], false, rx);
          assert Drain(old(rx)).data == buf && !Drain(old(rx)).failed;
          break;
        case ReadFailure =>
          assert step == Drained([], [Read(ReadFailure)], true, rx);
          assert Drain(old(rx)).failed;
          return Err(Abort(ReadFailed));
      }
      r := Ok(buf);
    }

    /** send_packet: refuse an over-long packet before touching anything,
        wait for the line to be free, write, and wait for the send to
        finish. */
    method SendPacket(packet: seq<Byte>, timeout: nat) returns (r: Result<()>)
      modifies this`auxCalls, this`log
      ensures |packet| > MaxPacket ==>
                r == Err(InvalidInput) && auxCalls == old(auxCalls) && log == old(log)
      ensures |packet| <= MaxPacket ==>
                var w1, w2 := aux(old(auxCalls)), aux(old(auxCalls) + 1);
                && r == (if !Ready(1, w1) then Err(TimedOut)
                         else if !Ready(1, w2) then Err(Abort(AuxTimeout))
                         else Ok(()))
                && auxCalls == old(auxCalls) + (if Ready(1, w1) then 2 else 1)
                && log == old(log) + WaitEvents(1, timeout, w1) +
                          (if Ready(1, w1) then [Write(packet)] + WaitEvents(1, BusyWaitMs, w2) else [])
    {
      if |packet| > MaxPacket {
        return Err(InvalidInput);
      }
      var free := WaitForAux(1, timeout);
      if free.Err? {
        return free;
      }
      SerialWrite(packet);
      var sent := WaitForAux(1, BusyWaitMs);
      if sent.Err? {
        return Err(Abort(AuxTimeout));
      }
      r := Ok(());
    }

    /** receive_packet: wait for the line to be free, wait for it to drop
        (data arriving; only this wait's timeout is returned), wait for it
        to rise again (data delivered), then read the port. */
    method ReceivePacket(timeout: nat) returns (r: Result<seq<Byte>>)
      modifies this`auxCalls, this`log, this`rx
      ensures var w1 := aux(old(auxCalls));
              !Ready(1, w1) ==>
                r == Err(Abort(AuxTimeout)) && auxCalls == old(auxCalls) + 1 && rx == old(rx) &&
                log == old(log) + WaitEvents(1, BusyWaitMs, w1)
      ensures var w1, w2 := aux(old(auxCalls)), aux(old(auxCalls) + 1);
              Ready(1, w1) && !Ready(0, w2) ==>
                r == Err(TimedOut) && auxCalls == old(auxCalls) + 2 && rx == old(rx) &&
                log == old(log) + WaitEvents(1, BusyWaitMs, w1) + WaitEvents(0, timeout, w2)
      ensures var w1, w2, w3 := aux(old(auxCalls)), aux(old(auxCalls) + 1), aux(old(auxCalls) + 2);
              Ready(1, w1) && Ready(0, w2) && !Ready(1, w3) ==>
                r == Err(Abort(AuxTimeout)) && auxCalls == old(auxCalls) + 3 && rx == old(rx) &&
                log == old(log) + WaitEvents(1, BusyWaitMs, w1) + WaitEvents(0, timeout, w2) +
                       WaitEvents(1, BusyWaitMs, w3)
      ensures var w1, w2, w3 := aux(old(auxCalls)), aux(old(auxCalls) + 1), aux(old(auxCalls) + 2);
              var d := Drain(old(rx));
              Ready(1, w1) && Ready(0, w2) && Ready(1, w3) ==>
                r == (if d.failed then Err(Abort(ReadFailed)) else Ok(d.data)) &&
                auxCalls == old(auxCalls) + 3 && rx == d.rest &&
                log == old(log) + WaitEvents(1, BusyWaitMs, w1) + WaitEvents(0, timeout, w2) +
                       WaitEvents(1, BusyWaitMs, w3) + d.calls
    {
      var free := WaitForAux(1, BusyWaitMs);
      if free.Err? {
        return Err(Abort(AuxTimeout));
      }
      var arriving := WaitForAux(0, timeout);
      if arriving.Err? {
        return Err(arriving.error);
      }
      var delivered := WaitForAux(1, BusyWaitMs);
      if delivered.Err? {
        return Err(Abort(AuxTimeout));
      }
      r := SerialRead();
    }

    /** write_config: put the module to sleep, switch the port to 9600
        baud, write the frame, read the echo, restore the previous mode,
        and only if the echo matches restore the port's speed.  A mismatch
        aborts with the port still at 9600 baud. */
    method WriteConfig(config: RadioConfig) returns (r: Result<()>)
      modifies this`auxCalls, this`log, this`m0, this`m1, this`mode, this`baud, this`rx
      ensures r.Err? ==> r.error.Abort?
      ensures !(Ready(1, aux(old(auxCalls))) && Ready(1, aux(old(auxCalls) + 1))) ==>
                r == Err(Abort(AuxTimeout))
      ensures Ready(1, aux(old(auxCalls))) && Ready(1, aux(old(auxCalls) + 1)) && Drain(old(rx)).failed ==>
                r == Err(Abort(ReadFailed))
      ensures Ready(1, aux(old(auxCalls))) && Ready(1, aux(old(auxCalls) + 1)) && !Drain(old(rx)).failed &&
              !(Ready(1, aux(old(auxCalls) + 2)) && Ready(1, aux(old(auxCalls) + 3))) ==>
                r == Err(Abort(AuxTimeout))
      ensures var w1, w2, w3 := aux(old(auxCalls)), aux(old(auxCalls) + 1), aux(old(auxCalls) + 2);
              var w4 := aux(old(auxCalls) + 3);
              var d := Drain(old(rx));
              Ready(1, w1) && Ready(1, w2) && !d.failed && Ready(1, w3) && Ready(1, w4) ==>
                && r == (if d.data == old(config.Raw()) then Ok(()) else Err(Abort(ConfigMismatch)))
                && mode == old(mode)
                && auxCalls == old(auxCalls) + 4
                && m0 == Pins(old(mode)).0 && m1 == Pins(old(mode)).1
                && baud == (if r.Ok? then old(baud) else ConfigBaud)
                && rx == d.rest
                && log == old(log) + ModeEvents(Sleep, w1, w2) +
                          [SetBaud(ConfigBaud), Write(old(config.Raw()))] + d.calls +
                          ModeEvents(old(mode), w3, w4) + (if r.Ok? then [SetBaud(old(baud))] else [])
    {
      ghost var a, log0, d := auxCalls, log, Drain(rx);
      ghost var w1, w2, w3, w4 := aux(a), aux(a + 1), aux(a + 2), aux(a + 3);
      var frame := config.Raw();
      var previous := mode;
      var asleep := SetMode(Sleep);
      if asleep.Err? {
        return asleep;
      }
      assert auxCalls == a + 2 && log == log0 + ModeEvents(Sleep, w1, w2);
      var original := baud;
      baud := ConfigBaud;
      log := log + [SetBaud(ConfigBaud)];
      SerialWrite(frame);
      ghost var written := log;
      assert written == log0 + ModeEvents(Sleep, w1, w2) + [SetBaud(ConfigBaud), Write(frame)];
      var echo := SerialRead();
      assert log == written + d.calls && rx == d.rest;
      if echo.Err? {
        return Err(echo.error);
      }
      ghost var echoed := log;
      var restored := SetMode(previous);
      assert log == echoed + ModeEvents(previous, w3, w4);
      if restored.Err? {
        return restored;
      }
      if echo.value != frame {
        return Err(Abort(ConfigMismatch));
      }
      baud := original;
      log := log + [SetBaud(original)];
      r := Ok(());
    }
  }
}
