/**
 * useBarcodeScanner: a global keydown listener that collects the keys of a
 * hardware scanner, which types much faster than a person, into a buffer and
 * hands the trimmed buffer over when Enter arrives.
 */
module BarcodeScanner {
  import opened Wrappers
  import opened Text

  /** Keys further apart than this many milliseconds are taken as manual typing. */
  const SCAN_GAP_MS: int := 100

  /** The two refs of the hook. */
  datatype ScanState = ScanState(buffer: string, lastKeyTime: int)

  /** `code.length > 0 ? code : nothing` for code = buffer.trim() */
  function CodeOf(buffer: string): Option<string> {
    var code := Trim(buffer);
    if |code| > 0 then Some(code) else None
  }

  /**
   * One keydown while the listener is installed: the state after it and the
   * code handed to onScan, if any.
   */
  function KeyDown(s: ScanState, key: string, now: int, inputFocused: bool): (r: (ScanState, Option<string>))
    ensures inputFocused ==> r == (s, None)
    ensures !inputFocused ==> r.0.lastKeyTime == now
    ensures !inputFocused && key == "Enter" ==> r.0.buffer == []
    ensures r.1.Some? ==> !inputFocused && key == "Enter" && now - s.lastKeyTime <= SCAN_GAP_MS && r.1 == CodeOf(s.buffer)
    ensures !inputFocused && key == "Enter" ==>
      r.1 == (if now - s.lastKeyTime > SCAN_GAP_MS then None else CodeOf(s.buffer))
    ensures !inputFocused && key != "Enter" ==>
      r.1 == None && r.0.buffer == (if now - s.lastKeyTime > SCAN_GAP_MS then "" else s.buffer) + (if |key| == 1 then key else "")
  {
    if inputFocused then (s, None)
    else
      var buffer := if now - s.lastKeyTime > SCAN_GAP_MS then "" else s.buffer;
      if key == "Enter" then
        assert buffer == "" ==> CodeOf(buffer) == None;
        (ScanState("", now), CodeOf(buffer))
      else if |key| == 1 then (ScanState(buffer + key, now), None)
      else (ScanState(buffer, now), None)
  }

  /** A code handed over is never empty and has no whitespace at either end. */
  lemma CodeOfTrimmed(buffer: string)
    ensures CodeOf(buffer).Some? ==> CodeOf(buffer).value != [] && Trim(CodeOf(buffer).value) == CodeOf(buffer).value
    ensures CodeOf(buffer).None? <==> AllSpace(buffer)
  {
    TrimSpec(buffer);
    TrimIdempotent(buffer);
  }

  /** A keystroke of the run: the key, its time, and whether an input or textarea had focus. */
  datatype KeyEvent = KeyEvent(key: string, time: int, inputFocused: bool)

  function Emitted(out: Option<string>): seq<string> {
    if out.Some? then [out.value] else []
  }

  /** The hook's state after a run of keystrokes. */
  function After(s: ScanState, events: seq<KeyEvent>): ScanState
    decreases |events|
  {
    if events == [] then s
    else After(KeyDown(s, events[0].key, events[0].time, events[0].inputFocused).0, events[1..])
  }

  /** The codes handed to onScan during a run of keystrokes, in order. */
  function Codes(s: ScanState, events: seq<KeyEvent>): seq<string>
    decreases |events|
  {
    if events == [] then []
    else
      var step := KeyDown(s, events[0].key, events[0].time, events[0].inputFocused);
      Emitted(step.1) + Codes(step.0, events[1..])
  }

  /** Every code a run emits is non-empty and has no whitespace at either end. */
  lemma {:induction false} EmittedCodesAreTrimmed(s: ScanState, events: seq<KeyEvent>)
    ensures forall c :: c in Codes(s, events) ==> c != [] && Trim(c) == c
    decreases |events|
  {
    if events != [] {
      var step := KeyDown(s, events[0].key, events[0].time, events[0].inputFocused);
      CodeOfTrimmed(s.buffer);
      EmittedCodesAreTrimmed(step.0, events[1..]);
    }
  }

  /** Running two stretches of keys one after the other is running them together. */
  lemma {:induction false} AfterAppend(s: ScanState, a: seq<KeyEvent>, b: seq<KeyEvent>)
    ensures After(s, a + b) == After(After(s, a), b)
    decreases |a|
  {
    if a == [] {
      assert a + b == b;
    } else {
      var s1 := KeyDown(s, a[0].key, a[0].time, a[0].inputFocused).0;
      assert (a + b)[0] == a[0];
      assert (a + b)[1..] == a[1..] + b;
      AfterAppend(s1, a[1..], b);
    }
  }

  /** The codes of two stretches of keys are the codes of the first followed by those of the second. */
  lemma {:induction false} CodesAppend(s: ScanState, a: seq<KeyEvent>, b: seq<KeyEvent>)
    ensures Codes(s, a + b) == Codes(s, a) + Codes(After(s, a), b)
    decreases |a|
  {
    if a == [] {
      assert a + b == b;
    } else {
      var step := KeyDown(s, a[0].key, a[0].time, a[0].inputFocused);
      assert (a + b)[0] == a[0];
      assert (a + b)[1..] == a[1..] + b;
      CodesAppend(step.0, a[1..], b);
      var x := Emitted(step.1);
      var y := Codes(step.0, a[1..]);
      var z := Codes(After(step.0, a[1..]), b);
      assert x + (y + z) == x + y + z;
    }
  }

  /** Keys typed by a scanner: single characters, nothing focused, each at most 100 ms after the one before. */
  predicate ScannerBurst(lastKeyTime: int, events: seq<KeyEvent>) {
    && (forall i :: 0 <= i < |events| ==> |events[i].key| == 1 && !events[i].inputFocused)
    && (|events| > 0 ==> events[0].time - lastKeyTime <= SCAN_GAP_MS)
    && (forall i :: 0 < i < |events| ==> events[i].time - events[i - 1].time <= SCAN_GAP_MS)
  }

  function Keys(events: seq<KeyEvent>): string
    decreases |events|
  {
    if events == [] then "" else events[0].key + Keys(events[1..])
  }

  /** A scanner burst appends its characters to the buffer and emits nothing. */
  lemma {:induction false} BurstAppends(s: ScanState, events: seq<KeyEvent>)
    requires ScannerBurst(s.lastKeyTime, events)
    ensures After(s, events).buffer == s.buffer + Keys(events)
    ensures Codes(s, events) == []
    ensures events != [] ==> After(s, events).lastKeyTime == events[|events| - 1].time
    ensures events == [] ==> After(s, events) == s
    decreases |events|
  {
    if events != [] {
      var e := events[0];
      var s1 := ScanState(s.buffer + e.key, e.time);
      assert e.key != "Enter";
      assert KeyDown(s, e.key, e.time, e.inputFocused) == (s1, None);
      assert ScannerBurst(s1.lastKeyTime, events[1..]);
      BurstAppends(s1, events[1..]);
      assert s.buffer + e.key + Keys(events[1..]) == s.buffer + (e.key + Keys(events[1..]));
    }
  }

  /** A run of one keystroke is that keystroke. */
  lemma SingleKey(s: ScanState, e: KeyEvent)
    ensures After(s, [e]) == KeyDown(s, e.key, e.time, e.inputFocused).0
    ensures Codes(s, [e]) == Emitted(KeyDown(s, e.key, e.time, e.inputFocused).1)
  {
    var step := KeyDown(s, e.key, e.time, e.inputFocused);
    assert [e][0] == e && [e][1..] == [];
    assert Emitted(step.1) + [] == Emitted(step.1);
  }

  /** The Enter that closes a scan, pressed with nothing focused and soon after the last key. */
  lemma EnterStep(s: ScanState, enterTime: int)
    requires enterTime - s.lastKeyTime <= SCAN_GAP_MS
    ensures After(s, [KeyEvent("Enter", enterTime, false)]) == ScanState("", enterTime)
    ensures Codes(s, [KeyEvent("Enter", enterTime, false)]) == Emitted(CodeOf(s.buffer))
  {
    SingleKey(s, KeyEvent("Enter", enterTime, false));
  }

  /** A burst followed quickly by Enter emits the trimmed buffer plus burst, and leaves the buffer empty. */
  lemma BurstThenEnter(s: ScanState, burst: seq<KeyEvent>, enterTime: int)
    requires ScannerBurst(s.lastKeyTime, burst)
    requires enterTime - (if burst == [] then s.lastKeyTime else burst[|burst| - 1].time) <= SCAN_GAP_MS
    ensures After(s, burst + [KeyEvent("Enter", enterTime, false)]) == ScanState("", enterTime)
    ensures Codes(s, burst + [KeyEvent("Enter", enterTime, false)]) == Emitted(CodeOf(s.buffer + Keys(burst)))
  {
    var enter := KeyEvent("Enter", enterTime, false);
    BurstAppends(s, burst);
    AfterAppend(s, burst, [enter]);
    CodesAppend(s, burst, [enter]);
    var mid := After(s, burst);
    EnterStep(mid, enterTime);
    assert [] + Codes(mid, [enter]) == Codes(mid, [enter]);
  }

  /**
   * A scan end to end: after a pause of more than 100 ms, a burst of
   * characters followed quickly by Enter emits exactly the trimmed characters,
   * whatever the buffer held before.
   */
  lemma ScanAfterPause(s: ScanState, burst: seq<KeyEvent>, enterTime: int)
    requires burst != [] && burst[0].time - s.lastKeyTime > SCAN_GAP_MS
    requires |burst[0].key| == 1 && !burst[0].inputFocused
    requires ScannerBurst(burst[0].time, burst[1..])
    requires enterTime - burst[|burst| - 1].time <= SCAN_GAP_MS
    ensures After(s, burst + [KeyEvent("Enter", enterTime, false)]) == ScanState("", enterTime)
    ensures Codes(s, burst + [KeyEvent("Enter", enterTime, false)]) == Emitted(CodeOf(Keys(burst)))
  {
    var enter := KeyEvent("Enter", enterTime, false);
    var e := burst[0];
    var s1 := ScanState(e.key, e.time);
    var rest := burst[1..] + [enter];
    assert e.key != "Enter" && "" + e.key == e.key;
    assert KeyDown(s, e.key, e.time, e.inputFocused) == (s1, None);
    assert [e][1..] == [];
    assert After(s, [e]) == s1;
    assert Codes(s, [e]) == [] + [];
    assert burst + [enter] == [e] + rest;
    AfterAppend(s, [e], rest);
    CodesAppend(s, [e], rest);
    BurstThenEnter(s1, burst[1..], enterTime);
    assert Keys(burst) == e.key + Keys(burst[1..]);
    assert [] + Codes(s1, rest) == Codes(s1, rest);
  }

  class Scanner {
    var buffer: string
    var lastKeyTime: int
    /** The hook's `isActive` option; when false no listener is installed. */
    const isActive: bool

    /** Mounting the hook at time `now`. */
    constructor (isActive: bool, now: int)
      ensures this.isActive == isActive && buffer == "" && lastKeyTime == now
    {
      this.isActive := isActive;
      buffer := "";
      lastKeyTime := now;
    }

    /** handleGlobalScan */
    method HandleKey(key: string, now: int, inputFocused: bool) returns (scanned: Option<string>)
      modifies this
      ensures !isActive ==> scanned == None && buffer == old(buffer) && lastKeyTime == old(lastKeyTime)
      ensures isActive ==>
        (ScanState(buffer, lastKeyTime), scanned) == KeyDown(ScanState(old(buffer), old(lastKeyTime)), key, now, inputFocused)
    {
      scanned := None;
      if !isActive || inputFocused {
        return;
      }
      if now - lastKeyTime > SCAN_GAP_MS {
        buffer := "";
      }
      lastKeyTime := now;
      if key == "Enter" {
        var code := Trim(buffer);
        if |code| > 0 {
          scanned := Some(code);
        }
        buffer := "";
      } else if |key| == 1 {
        buffer := buffer + key;
      }
    }
  }
}
