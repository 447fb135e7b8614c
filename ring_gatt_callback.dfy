/** OmniRingGattListener.kt: a process-wide GATT callback object that reads
    every characteristic after discovery and writes each notification to
    the ring log, opening a new log file once the current one holds more
    than 1000 rows. */
module RingGattCallback {
  import opened Wrappers
  import opened FrameDecoder
  import opened LogRows
  import opened Gatt

  /** The rotation rule of `onCharacteristicChanged`, read before the row is
      written: rotate when the counter has passed 1000. */
  predicate Rotates(lineCount: int)
  {
    lineCount > 1000
  }

  /** The counter after one row is written: reset if the file rotated, then
      incremented. */
  function NextLineCount(lineCount: int): (next: int)
    ensures Rotates(lineCount) ==> next == 1
    ensures !Rotates(lineCount) ==> next == lineCount + 1
  {
    (if Rotates(lineCount) then 0 else lineCount) + 1
  }

  /** The counter after `n` rows written from a fresh start. */
  function LineCountAfter(n: nat): int
  {
    if n == 0 then 0 else NextLineCount(LineCountAfter(n - 1))
  }

  /** From a fresh start the counter cycles through 1 .. 1001. */
  lemma {:induction false} LineCountCycle(n: nat)
    ensures n > 0 ==> LineCountAfter(n) == (n - 1) % 1001 + 1
    ensures 0 <= LineCountAfter(n) <= 1001
  {
    if n > 1 {
      LineCountCycle(n - 1);
      var q, r := (n - 2) / 1001, (n - 2) % 1001;
      assert n - 1 == 1001 * q + r + 1;
      if r == 1000 {
        SplitAt(0, q + 1, 1001);
      } else {
        SplitAt(r + 1, q, 1001);
      }
    }
  }

  /** The row numbered `k + 1` opens a new file exactly when `k` is a
      positive multiple of 1001: every file receives exactly 1001 rows, and
      the first rotation happens on the 1002nd row, not after 1000. */
  lemma RotationSchedule(k: nat)
    ensures Rotates(LineCountAfter(k)) <==> k > 0 && k % 1001 == 0
  {
    LineCountCycle(k);
    if k > 0 {
      var q, r := (k - 1) / 1001, (k - 1) % 1001;
      assert k == 1001 * q + r + 1;
      if r == 1000 {
        SplitAt(0, q + 1, 1001);
      } else {
        SplitAt(r + 1, q, 1001);
      }
    }
  }

  /** One read request per (service, characteristic) pair, in order. */
  function ReadsOf(pairs: seq<(string, string)>): (requests: seq<GattCommand>)
    ensures |requests| == |pairs|
    ensures forall k :: 0 <= k < |pairs| ==> requests[k] == ReadCharacteristic(pairs[k].0, pairs[k].1)
  {
    seq(|pairs|, k requires 0 <= k < |pairs| => ReadCharacteristic(pairs[k].0, pairs[k].1))
  }

  /** Reading the first `i + 1` services reads the first `i`, then
      service `i`. */
  lemma ReadsOfNextService(services: seq<Service>, i: nat)
    requires i < |services|
    ensures ReadsOf(AllCharacteristics(services[..i + 1])) ==
      ReadsOf(AllCharacteristics(services[..i])) + ReadsOf(Pairs(services[i]))
  {
    AllCharacteristicsStep(services, i);
    ReadsOfAppend(AllCharacteristics(services[..i]), Pairs(services[i]));
  }

  lemma ReadsOfAppend(a: seq<(string, string)>, b: seq<(string, string)>)
    ensures ReadsOf(a + b) == ReadsOf(a) + ReadsOf(b)
  {
  }

  lemma ReadsOfStep(pairs: seq<(string, string)>, j: nat)
    requires j < |pairs|
    ensures ReadsOf(pairs[..j + 1]) == ReadsOf(pairs[..j]) + [ReadCharacteristic(pairs[j].0, pairs[j].1)]
  {
    assert pairs[..j + 1] == pairs[..j] + [pairs[j]];
    ReadsOfAppend(pairs[..j], [pairs[j]]);
  }

  class OmniRingGattListener {
    var lineCount: int
    var commands: seq<GattCommand>
    var logEvents: seq<LogEvent>

    /** The counter stays in the range a fresh start can reach. */
    ghost predicate Valid()
      reads this
    {
      0 <= lineCount <= 1001
    }

    constructor ()
      ensures Valid() && lineCount == 0 && commands == [] && logEvents == []
    {
      lineCount := 0;
      commands := [];
      logEvents := [];
    }

    /** `onConnectionStateChange`: only STATE_CONNECTED does anything, and
        that is a service discovery request. */
    method OnConnectionStateChange(newState: int)
      modifies this
      ensures lineCount == old(lineCount) && logEvents == old(logEvents)
      ensures commands == old(commands) + if newState == STATE_CONNECTED then [DiscoverServices] else []
    {
      if newState == STATE_CONNECTED {
        commands := commands + [DiscoverServices];
      }
    }

    /** `onServicesDiscovered`: on success, a read request for every
        characteristic of every service, in order; otherwise nothing. */
    method OnServicesDiscovered(status: int, services: seq<Service>)
      modifies this
      ensures lineCount == old(lineCount) && logEvents == old(logEvents)
      ensures status != GATT_SUCCESS ==> commands == old(commands)
      ensures status == GATT_SUCCESS ==> commands == old(commands) + ReadsOf(AllCharacteristics(services))
    {
      if status != GATT_SUCCESS {
        return;
      }
      var i := 0;
      while i < |services|
        invariant 0 <= i <= |services|
        invariant lineCount == old(lineCount) && logEvents == old(logEvents)
        invariant commands == old(commands) + ReadsOf(AllCharacteristics(services[..i]))
      {
        ReadService(services[i]);
        ReadsOfNextService(services, i);
        i := i + 1;
      }
      assert services[..i] == services;
    }

    /** The inner loop of `onServicesDiscovered`: a read request for each
        characteristic of one service, in order. */
    method ReadService(service: Service)
      modifies this
      ensures lineCount == old(lineCount) && logEvents == old(logEvents)
      ensures commands == old(commands) + ReadsOf(Pairs(service))
    {
      var j := 0;
      while j < |service.characteristics|
        invariant 0 <= j <= |service.characteristics|
        invariant lineCount == old(lineCount) && logEvents == old(logEvents)
        invariant commands == old(commands) + ReadsOf(Pairs(service)[..j])
      {
        commands := commands + [ReadCharacteristic(service.uuid, service.characteristics[j].uuid)];
        ReadsOfStep(Pairs(service), j);
        j := j + 1;
      }
      assert Pairs(service)[..j] == Pairs(service);
    }

    /** `onCharacteristicChanged`: rotate the log file if the counter has
        passed 1000, then decode the value (a missing one counts as empty),
        write one plain row and count it. A malformed value throws after the
        rotation and before the write. */
    method OnCharacteristicChanged(value: Option<seq<byte>>, fmt: word32 -> string) returns (outcome: Outcome)
      requires Valid()
      modifies this
      ensures Valid()
      ensures commands == old(commands)
      ensures var rotation := if Rotates(old(lineCount)) then [NewFile(OmniRingLog)] else [];
        match Decode(value.GetOr([]))
        case Success(words) =>
          && outcome == Completed
          && lineCount == NextLineCount(old(lineCount))
          && logEvents == old(logEvents) + rotation + [Write(OmniRingLog, PlainRow(words, fmt))]
        case Failure(e) =>
          && outcome == Crashed(MalformedPayload(e.offset))
          && lineCount == NextLineCount(old(lineCount)) - 1
          && logEvents == old(logEvents) + rotation
    {
      if lineCount > 1000 {
        logEvents := logEvents + [NewFile(OmniRingLog)];
        lineCount := 0;
      }
      ghost var rotation := if Rotates(old(lineCount)) then [NewFile(OmniRingLog)] else [];
      assert logEvents == old(logEvents) + rotation;
      assert lineCount + 1 == NextLineCount(old(lineCount));
      var decoded := DecodeByteData(value.GetOr([]));
      if decoded.Failure? {
        outcome := Crashed(MalformedPayload(decoded.error.offset));
      } else {
        var row := Write(OmniRingLog, PlainRow(decoded.value, fmt));
        logEvents := logEvents + [row];
        assert logEvents == old(logEvents) + rotation + [row];
        lineCount := lineCount + 1;
        outcome := Completed;
      }
    }
  }

  /** Rows 1 .. 1001 go to the first file; row 1002 opens a new one. */
  method ScenarioRotation(fmt: word32 -> string)
  {
    var listener := new OmniRingGattListener();
    var n := 0;
    while n < 1001
      invariant 0 <= n <= 1001
      invariant listener.Valid() && listener.lineCount == n
      invariant NewFile(OmniRingLog) !in listener.logEvents
    {
      var _ := listener.OnCharacteristicChanged(Some([]), fmt);
      n := n + 1;
    }
    var _ := listener.OnCharacteristicChanged(Some([]), fmt);
    assert NewFile(OmniRingLog) in listener.logEvents && listener.lineCount == 1;
  }
}
